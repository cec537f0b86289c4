/** Signed authorization tokens: what is signed, the text that carries it, and
    how a proxy reads it back. */
module Tokens {
  import opened Wrappers
  import opened JsonText
  import opened JsonReader
  import opened Canonical

  /** The thirteen signed fields. */
  datatype Token = Token(
    authorization: string,
    transition: string,
    agent: string,
    project: string,
    branch: string,
    audience: string,
    tool: string,
    payloadHash: string,
    policySetHash: string,
    versions: map<string, int>,
    issuedAt: string,
    expiresAt: string,
    nonce: string)

  /** Signing and verification. All that is known of the pair is that what was
      signed verifies, and that no signature is empty. */
  datatype Keys = Keys(sign: string -> string, verify: (string, string) -> bool)

  ghost predicate Paired(k: Keys) {
    forall m :: k.sign(m) != "" && k.verify(m, k.sign(m))
  }

  function VersionsJson(versions: map<string, int>): Json {
    Obj(map p | p in versions :: Int(versions[p]))
  }

  function Payload(t: Token): map<string, Json> {
    map[
      "authorization_id" := Str(t.authorization),
      "transition_id" := Str(t.transition),
      "agent_id" := Str(t.agent),
      "project_id" := Str(t.project),
      "branch_id" := Str(t.branch),
      "proxy_audience" := Str(t.audience),
      "tool" := Str(t.tool),
      "payload_hash" := Str(t.payloadHash),
      "policy_set_hash" := Str(t.policySetHash),
      "matched_policy_versions" := VersionsJson(t.versions),
      "issued_at" := Str(t.issuedAt),
      "expires_at" := Str(t.expiresAt),
      "nonce" := Str(t.nonce)]
  }

  function Signature(k: Keys, t: Token): string {
    k.sign(Dump(Obj(Payload(t))))
  }

  /** The token as it is handed over: canonical JSON of the payload with the
      signature added. */
  function SignedText(k: Keys, t: Token): string {
    Dump(Obj(Payload(t)["signature" := Str(Signature(k, t))]))
  }

  function TextField(fields: map<string, Json>, name: string): Option<string> {
    if name in fields && fields[name].Str? then Some(fields[name].s) else None
  }

  /** A token whose signature is missing, empty or wrong is not authentic. The
      signature covers every other field, in canonical form. */
  predicate Authentic(k: Keys, fields: map<string, Json>) {
    var signature := TextField(fields, "signature");
    && signature.Some? && signature.value != ""
    && k.verify(Dump(Obj(fields - {"signature"})), signature.value)
  }

  const NAMES: seq<string> := [
    "authorization_id", "transition_id", "agent_id", "project_id", "branch_id", "proxy_audience", "tool",
    "payload_hash", "policy_set_hash", "issued_at", "expires_at", "nonce"]

  function VersionsOf(j: Json): Option<map<string, int>> {
    if j.Obj? && forall p :: p in j.fields ==> j.fields[p].Int? then
      Some(map p | p in j.fields && j.fields[p].Int? :: j.fields[p].i)
    else None
  }

  /** Versions that are missing or unreadable text count as none; versions given as
      text are read. */
  function VersionsIn(fields: map<string, Json>): Option<map<string, int>> {
    if "matched_policy_versions" !in fields then Some(map[])
    else
      var j := fields["matched_policy_versions"];
      if !j.Str? then VersionsOf(j)
      else
        var read := Load(j.s);
        if read.None? then Some(map[]) else VersionsOf(read.value)
  }

  function TokenOf(fields: map<string, Json>): Option<Token> {
    if exists i :: 0 <= i < |NAMES| && TextField(fields, NAMES[i]).None? then None
    else
      var versions := VersionsIn(fields);
      if versions.None? then None
      else Some(Token(
        TextField(fields, "authorization_id").GetOr(""),
        TextField(fields, "transition_id").GetOr(""),
        TextField(fields, "agent_id").GetOr(""),
        TextField(fields, "project_id").GetOr(""),
        TextField(fields, "branch_id").GetOr(""),
        TextField(fields, "proxy_audience").GetOr(""),
        TextField(fields, "tool").GetOr(""),
        TextField(fields, "payload_hash").GetOr(""),
        TextField(fields, "policy_set_hash").GetOr(""),
        versions.value,
        TextField(fields, "issued_at").GetOr(""),
        TextField(fields, "expires_at").GetOr(""),
        TextField(fields, "nonce").GetOr("")))
  }

  /** Parse a presented text, check its signature and rebuild the token. */
  function ReadToken(k: Keys, text: string): Option<Token> {
    var parsed := Load(text);
    if parsed.None? || !parsed.value.Obj? then None
    else if !Authentic(k, parsed.value.fields) then None
    else TokenOf(parsed.value.fields)
  }

  // ------------------------------------------------------------ round trip

  lemma VersionsRoundTrip(versions: map<string, int>)
    ensures VersionsOf(VersionsJson(versions)) == Some(versions)
  {
    var r := VersionsOf(VersionsJson(versions));
    assert r.Some? && r.value.Keys == versions.Keys;
    assert forall p :: p in versions ==> r.value[p] == versions[p];
    assert r.value == versions;
  }

  lemma PayloadHoldsIds(t: Token, signature: string)
    ensures var fields := Payload(t)["signature" := Str(signature)];
            && TextField(fields, "authorization_id") == Some(t.authorization)
            && TextField(fields, "transition_id") == Some(t.transition)
            && TextField(fields, "agent_id") == Some(t.agent)
            && TextField(fields, "project_id") == Some(t.project)
            && TextField(fields, "branch_id") == Some(t.branch)
            && TextField(fields, "proxy_audience") == Some(t.audience)
  {
  }

  lemma PayloadHoldsRest(t: Token, signature: string)
    ensures var fields := Payload(t)["signature" := Str(signature)];
            && TextField(fields, "tool") == Some(t.tool)
            && TextField(fields, "payload_hash") == Some(t.payloadHash)
            && TextField(fields, "policy_set_hash") == Some(t.policySetHash)
            && "matched_policy_versions" in fields && fields["matched_policy_versions"] == VersionsJson(t.versions)
            && TextField(fields, "issued_at") == Some(t.issuedAt)
            && TextField(fields, "expires_at") == Some(t.expiresAt)
            && TextField(fields, "nonce") == Some(t.nonce)
  {
  }

  lemma AllNamesPresent(fields: map<string, Json>)
    requires TextField(fields, "authorization_id").Some? && TextField(fields, "transition_id").Some?
    requires TextField(fields, "agent_id").Some? && TextField(fields, "project_id").Some?
    requires TextField(fields, "branch_id").Some? && TextField(fields, "proxy_audience").Some?
    requires TextField(fields, "tool").Some? && TextField(fields, "payload_hash").Some?
    requires TextField(fields, "policy_set_hash").Some? && TextField(fields, "issued_at").Some?
    requires TextField(fields, "expires_at").Some? && TextField(fields, "nonce").Some?
    ensures forall i :: 0 <= i < |NAMES| ==> TextField(fields, NAMES[i]).Some?
  {
  }

  lemma FieldsGiveTokenBack(t: Token, signature: string)
    ensures TokenOf(Payload(t)["signature" := Str(signature)]) == Some(t)
  {
    var fields := Payload(t)["signature" := Str(signature)];
    PayloadHoldsIds(t, signature);
    PayloadHoldsRest(t, signature);
    AllNamesPresent(fields);
    VersionsRoundTrip(t.versions);
  }

  lemma SignedFieldsAreAuthentic(k: Keys, t: Token)
    requires Paired(k)
    ensures Authentic(k, Payload(t)["signature" := Str(Signature(k, t))])
  {
    var signature := Str(Signature(k, t));
    assert "signature" !in Payload(t);
    assert Payload(t)["signature" := signature] - {"signature"} == Payload(t);
  }

  /** A signed token reads back as itself. */
  lemma SignedTokenReadsBack(k: Keys, t: Token)
    requires Paired(k)
    ensures ReadToken(k, SignedText(k, t)) == Some(t)
  {
    var fields := Payload(t)["signature" := Str(Signature(k, t))];
    LoadReturnsWhatWasWritten(Obj(fields));
    SignedFieldsAreAuthentic(k, t);
    FieldsGiveTokenBack(t, Signature(k, t));
  }

  // ------------------------------------------------------------ nothing else is read

  predicate Says(fields: map<string, Json>, name: string, text: string) {
    name in fields && fields[name] == Str(text)
  }

  /** The fields say what the token is, and possibly more. */
  predicate Carries(fields: map<string, Json>, t: Token) {
    && Says(fields, "authorization_id", t.authorization) && Says(fields, "transition_id", t.transition)
    && Says(fields, "agent_id", t.agent) && Says(fields, "project_id", t.project)
    && Says(fields, "branch_id", t.branch) && Says(fields, "proxy_audience", t.audience)
    && Says(fields, "tool", t.tool) && Says(fields, "payload_hash", t.payloadHash)
    && Says(fields, "policy_set_hash", t.policySetHash) && Says(fields, "issued_at", t.issuedAt)
    && Says(fields, "expires_at", t.expiresAt) && Says(fields, "nonce", t.nonce)
    && VersionsSaid(fields, t.versions)
  }

  /** The versions stand there as such or as text; if there are none, or text that
      is no JSON, they are empty. */
  predicate VersionsSaid(fields: map<string, Json>, versions: map<string, int>) {
    if "matched_policy_versions" !in fields then versions == map[]
    else
      match fields["matched_policy_versions"]
      case Str(s) => Load(s) == Some(VersionsJson(versions)) || (Load(s) == None && versions == map[])
      case j => j == VersionsJson(versions)
  }

  lemma VersionsReadExactly(j: Json, versions: map<string, int>)
    ensures VersionsOf(j) == Some(versions) <==> j == VersionsJson(versions)
  {
    VersionsRoundTrip(versions);
    if VersionsOf(j) == Some(versions) {
      var fields := VersionsJson(versions).fields;
      assert j.fields.Keys == versions.Keys == fields.Keys;
      assert forall p :: p in fields ==> fields[p] == j.fields[p];
      assert j.fields == fields;
    }
  }

  lemma VersionsInExactly(fields: map<string, Json>, versions: map<string, int>)
    ensures VersionsIn(fields) == Some(versions) <==> VersionsSaid(fields, versions)
  {
    if "matched_policy_versions" in fields {
      var j := fields["matched_policy_versions"];
      VersionsReadExactly(j, versions);
      if j.Str? && Load(j.s).Some? {
        VersionsReadExactly(Load(j.s).value, versions);
      }
    }
  }

  lemma SaysExactly(fields: map<string, Json>, name: string, text: string)
    ensures TextField(fields, name) == Some(text) <==> Says(fields, name, text)
  {
  }

  lemma NamedFields(fields: map<string, Json>)
    requires forall i :: 0 <= i < |NAMES| ==> TextField(fields, NAMES[i]).Some?
    ensures TextField(fields, "authorization_id").Some? && TextField(fields, "transition_id").Some?
    ensures TextField(fields, "agent_id").Some? && TextField(fields, "project_id").Some?
    ensures TextField(fields, "branch_id").Some? && TextField(fields, "proxy_audience").Some?
    ensures TextField(fields, "tool").Some? && TextField(fields, "payload_hash").Some?
    ensures TextField(fields, "policy_set_hash").Some? && TextField(fields, "issued_at").Some?
    ensures TextField(fields, "expires_at").Some? && TextField(fields, "nonce").Some?
  {
    assert NAMES[0] == "authorization_id" && NAMES[1] == "transition_id" && NAMES[2] == "agent_id";
    assert NAMES[3] == "project_id" && NAMES[4] == "branch_id" && NAMES[5] == "proxy_audience";
    assert NAMES[6] == "tool" && NAMES[7] == "payload_hash" && NAMES[8] == "policy_set_hash";
    assert NAMES[9] == "issued_at" && NAMES[10] == "expires_at" && NAMES[11] == "nonce";
  }

  lemma CarriedTokenIsRead(fields: map<string, Json>, t: Token)
    requires Carries(fields, t)
    ensures TokenOf(fields) == Some(t)
  {
    AllNamesPresent(fields);
    VersionsInExactly(fields, t.versions);
  }

  lemma ReadTokenIsCarried(fields: map<string, Json>, t: Token)
    requires TokenOf(fields) == Some(t)
    ensures Carries(fields, t)
  {
    NamedFields(fields);
    VersionsInExactly(fields, t.versions);
  }

  /** The text is an object that carries the token and a signature, not empty, that
      verifies over all its other fields in canonical form. */
  predicate Signed(k: Keys, text: string, t: Token) {
    && Load(text).Some? && Load(text).value.Obj?
    && var fields := Load(text).value.fields;
       && Carries(fields, t) && "signature" in fields && fields["signature"].Str? && fields["signature"].s != ""
       && k.verify(Dump(Obj(fields - {"signature"})), fields["signature"].s)
  }

  /** A text is read as a token exactly if it is such a text; and it passes
      verification exactly if, moreover, now is not later than the expiry. */
  lemma TokensAreReadExactly(k: Keys, text: string, t: Token, now: string)
    ensures ReadToken(k, text) == Some(t) <==> Signed(k, text, t)
    ensures VerifyToken(CodecOf(k), text, now) == Some(t) <==> Signed(k, text, t) && !Less(t.expiresAt, now)
  {
    if Load(text).Some? && Load(text).value.Obj? {
      var fields := Load(text).value.fields;
      if Carries(fields, t) {
        CarriedTokenIsRead(fields, t);
      }
      if TokenOf(fields) == Some(t) {
        ReadTokenIsCarried(fields, t);
      }
    }
  }

  // ------------------------------------------------------------ as a codec

  /** Writing and reading tokens, as far as the rest of the system can tell. */
  datatype Codec = Codec(write: Token -> string, read: string -> Option<Token>)

  function CodecOf(k: Keys): Codec {
    Codec(t => SignedText(k, t), text => ReadToken(k, text))
  }

  ghost predicate Faithful(k: Codec) {
    forall t :: k.read(k.write(t)) == Some(t)
  }

  lemma CodecIsFaithful(k: Keys)
    requires Paired(k)
    ensures Faithful(CodecOf(k))
  {
    forall t ensures CodecOf(k).read(CodecOf(k).write(t)) == Some(t) {
      SignedTokenReadsBack(k, t);
    }
  }

  /** The check made before anything is claimed: readable, authentic and not
      past its expiry. Timestamps have one fixed format, so their text order is
      their order in time. */
  function VerifyToken(k: Codec, text: string, now: string): Option<Token> {
    var token := k.read(text);
    if token.Some? && Less(token.value.expiresAt, now) then None else token
  }

  /** Whatever text has the stored hash is the issued text, so reading it gives
      the issued token, field by field. The strength of the signature is not
      needed for this. */
  lemma StoredHashFixesToken(h: Digest, k: Codec, t: Token, text: string)
    requires Faithful(k) && h(text) == h(k.write(t))
    ensures text == k.write(t) && k.read(text) == Some(t)
  {
  }

  /** Different tokens have different stored hashes. */
  lemma StoredHashesDiffer(h: Digest, k: Codec, t: Token, u: Token)
    requires Faithful(k) && h(k.write(t)) == h(k.write(u))
    ensures t == u
  {
    assert k.read(k.write(t)) == k.read(k.write(u));
  }
}
