/** The hash-chained audit log: what one event hashes, how the log grows, and
    what its verifier accepts. */
module Audit {
  import opened Wrappers
  import opened JsonText
  import opened JsonReader
  import opened Canonical

  /** A stored event. The payload is stored as text. */
  datatype EventRow = EventRow(
    id: string,
    sequence: int,
    eventType: string,
    dataText: string,
    previousHash: string,
    eventHash: string,
    actor: string,
    caller: string,
    writer: string,
    createdAt: string)

  datatype Head = Head(lastSequence: int, lastHash: string)

  /** The envelope that is hashed: every immutable field of the event. */
  function Envelope(lattice: string, row: EventRow, data: Json): Json {
    Obj(map[
          "sequence" := Int(row.sequence),
          "event_id" := Str(row.id),
          "lattice_id" := Str(lattice),
          "event_type" := Str(row.eventType),
          "event_data" := data,
          "actor_principal_id" := Str(row.actor),
          "authenticated_caller_id" := Str(row.caller),
          "event_writer_id" := Str(row.writer),
          "created_at" := Str(row.createdAt),
          "previous_hash" := Str(row.previousHash)])
  }

  function EnvelopeHash(h: Digest, lattice: string, row: EventRow, data: Json): string {
    h(Dump(Envelope(lattice, row, data)))
  }

  function LastHash(rows: seq<EventRow>): string {
    if rows == [] then GENESIS else rows[|rows| - 1].eventHash
  }

  // ------------------------------------------------------------ growing

  /** What the caller supplies for one event. */
  datatype Draft = Draft(id: string, eventType: string, data: Json, actor: string, caller: string, createdAt: string)

  function NewRow(h: Digest, writer: string, lattice: string, head: Head, e: Draft): EventRow {
    var row := EventRow(e.id, head.lastSequence + 1, e.eventType, Dump(e.data), head.lastHash, "",
                        e.actor, e.caller, writer, e.createdAt);
    row.(eventHash := EnvelopeHash(h, lattice, row, e.data))
  }

  // ------------------------------------------------------------ verifying

  predicate Readable(row: EventRow) {
    Load(row.dataText).Some?
  }

  /** Row i carries the hash of its own envelope and names its predecessor. */
  predicate RowVerifies(h: Digest, lattice: string, rows: seq<EventRow>, i: nat)
    requires i < |rows|
  {
    && Readable(rows[i])
    && EnvelopeHash(h, lattice, rows[i], Load(rows[i].dataText).value) == rows[i].eventHash
    && rows[i].previousHash == LastHash(rows[..i])
  }

  lemma RowVerifiesAlike(h: Digest, lattice: string, rows: seq<EventRow>, all: seq<EventRow>, i: nat)
    requires i < |rows| && i < |all| && rows[i] == all[i] && rows[..i] == all[..i]
    ensures RowVerifies(h, lattice, rows, i) == RowVerifies(h, lattice, all, i)
  {
  }

  ghost predicate Verified(h: Digest, lattice: string, rows: seq<EventRow>) {
    forall i: nat :: i < |rows| ==> RowVerifies(h, lattice, rows, i)
  }

  /** The rows before i verify and row i does not. */
  ghost predicate FirstFailure(h: Digest, lattice: string, rows: seq<EventRow>, i: nat) {
    i < |rows| && Verified(h, lattice, rows[..i]) && !RowVerifies(h, lattice, rows, i)
  }

  /** The verifier. It stops at the first row that fails; None stands for the
      exception that a payload which is not JSON raises. */
  method Verify(h: Digest, lattice: string, rows: seq<EventRow>) returns (r: Option<bool>)
    ensures r == Some(true) <==> Verified(h, lattice, rows)
    ensures r == Some(false) ==> exists i: nat :: FirstFailure(h, lattice, rows, i) && Readable(rows[i])
    ensures r == None ==> exists i: nat :: FirstFailure(h, lattice, rows, i) && !Readable(rows[i])
  {
    var expected := GENESIS;
    var i := 0;
    while i < |rows|
      invariant 0 <= i <= |rows|
      invariant expected == LastHash(rows[..i])
      invariant Verified(h, lattice, rows[..i])
    {
      var row := rows[i];
      var data := Load(row.dataText);
      if data.None? {
        FailureRejects(h, lattice, rows, i);
        return None;
      }
      if EnvelopeHash(h, lattice, row, data.value) != row.eventHash {
        FailureRejects(h, lattice, rows, i);
        return Some(false);
      }
      if row.previousHash != expected {
        FailureRejects(h, lattice, rows, i);
        return Some(false);
      }
      expected := row.eventHash;
      SuccessExtends(h, lattice, rows, i);
      i := i + 1;
    }
    assert rows[..i] == rows;
    return Some(true);
  }

  lemma FailureRejects(h: Digest, lattice: string, rows: seq<EventRow>, i: nat)
    requires i < |rows| && Verified(h, lattice, rows[..i])
    requires !Readable(rows[i]) || rows[i].previousHash != LastHash(rows[..i])
          || EnvelopeHash(h, lattice, rows[i], Load(rows[i].dataText).value) != rows[i].eventHash
    ensures FirstFailure(h, lattice, rows, i) && !Verified(h, lattice, rows)
  {
  }

  lemma SuccessExtends(h: Digest, lattice: string, rows: seq<EventRow>, i: nat)
    requires i < |rows| && Verified(h, lattice, rows[..i]) && RowVerifies(h, lattice, rows, i)
    ensures Verified(h, lattice, rows[..i + 1]) && LastHash(rows[..i + 1]) == rows[i].eventHash
  {
    var all := rows[..i + 1];
    forall j: nat | j < |all| ensures RowVerifies(h, lattice, all, j) {
      assert all[..j] == rows[..i][..j] == rows[..j];
      if j < i {
        assert RowVerifies(h, lattice, rows[..i], j);
        RowVerifiesAlike(h, lattice, rows[..i], all, j);
      } else {
        RowVerifiesAlike(h, lattice, rows, all, j);
      }
    }
  }

  lemma PrefixVerifies(h: Digest, lattice: string, rows: seq<EventRow>, n: nat)
    requires n <= |rows| && Verified(h, lattice, rows)
    ensures Verified(h, lattice, rows[..n])
  {
    forall j: nat | j < n ensures RowVerifies(h, lattice, rows[..n], j) {
      assert RowVerifies(h, lattice, rows, j);
      assert rows[..n][..j] == rows[..j];
      RowVerifiesAlike(h, lattice, rows, rows[..n], j);
    }
  }

  // ------------------------------------------------------------ invariant

  /** A log and its head as the writer leaves them. */
  ghost predicate WellKept(h: Digest, lattice: string, head: Head, rows: seq<EventRow>) {
    && Verified(h, lattice, rows)
    && (forall i :: 0 <= i < |rows| ==> rows[i].sequence == i + 1)
    && head == Head(|rows|, LastHash(rows))
  }

  /** Writing one event keeps the log well kept: numbering without a gap, the
      head at the last event, and a chain that verifies after the payload has
      been stored as text and loaded again. The event is the one drafted. */
  lemma WritingKeepsLogWellKept(h: Digest, writer: string, lattice: string, head: Head, rows: seq<EventRow>, e: Draft)
    requires WellKept(h, lattice, head, rows)
    ensures var row := NewRow(h, writer, lattice, head, e);
            && WellKept(h, lattice, Head(row.sequence, row.eventHash), rows + [row])
            && Load(row.dataText) == Some(e.data)
            && row == EventRow(e.id, |rows| + 1, e.eventType, Dump(e.data), LastHash(rows), row.eventHash,
                               e.actor, e.caller, writer, e.createdAt)
  {
    var row := NewRow(h, writer, lattice, head, e);
    var all := rows + [row];
    LoadReturnsWhatWasWritten(e.data);
    forall i: nat | i < |all| ensures RowVerifies(h, lattice, all, i) {
      assert all[..i] == rows[..i];
      if i < |rows| {
        assert RowVerifies(h, lattice, rows, i);
        RowVerifiesAlike(h, lattice, rows, all, i);
      } else {
        assert rows[..i] == rows;
        assert Envelope(lattice, row, e.data) == Envelope(lattice, row.(eventHash := ""), e.data);
      }
    }
  }

  // ------------------------------------------------------------ tampering

  /** Two rows agree in every field that is hashed, and in the hash. */
  ghost predicate SameEvent(a: EventRow, b: EventRow) {
    && Readable(a) && Readable(b) && Load(a.dataText) == Load(b.dataText)
    && a == b.(dataText := a.dataText)
  }

  ghost predicate SameLog(a: seq<EventRow>, b: seq<EventRow>) {
    |a| == |b| && forall i :: 0 <= i < |a| ==> SameEvent(a[i], b[i])
  }

  lemma SameLogExtends(a: seq<EventRow>, b: seq<EventRow>)
    requires a != [] && b != []
    requires SameLog(a[..|a| - 1], b[..|b| - 1]) && SameEvent(a[|a| - 1], b[|b| - 1])
    ensures SameLog(a, b)
  {
    forall k | 0 <= k < |a| ensures SameEvent(a[k], b[k]) {
      if k < |a| - 1 {
        assert SameEvent(a[..|a| - 1][k], b[..|b| - 1][k]);
      }
    }
  }

  lemma EnvelopeShowsPayload(l: string, a: EventRow, x: Json, m: string, b: EventRow, y: Json)
    requires Envelope(l, a, x) == Envelope(m, b, y)
    ensures l == m && x == y && a.sequence == b.sequence && a.id == b.id && a.eventType == b.eventType
  {
    var e, f := Envelope(l, a, x).fields, Envelope(m, b, y).fields;
    assert e["sequence"] == f["sequence"] && e["event_id"] == f["event_id"];
    assert e["lattice_id"] == f["lattice_id"];
    assert e["event_type"] == f["event_type"] && e["event_data"] == f["event_data"];
  }

  lemma EnvelopeShowsOrigin(l: string, a: EventRow, x: Json, m: string, b: EventRow, y: Json)
    requires Envelope(l, a, x) == Envelope(m, b, y)
    ensures a.actor == b.actor && a.caller == b.caller && a.writer == b.writer
    ensures a.createdAt == b.createdAt && a.previousHash == b.previousHash
  {
    var e, f := Envelope(l, a, x).fields, Envelope(m, b, y).fields;
    assert e["actor_principal_id"] == f["actor_principal_id"];
    assert e["authenticated_caller_id"] == f["authenticated_caller_id"];
    assert e["event_writer_id"] == f["event_writer_id"];
    assert e["created_at"] == f["created_at"] && e["previous_hash"] == f["previous_hash"];
  }

  lemma EnvelopeDeterminesEvent(h: Digest, l: string, a: EventRow, x: Json, m: string, b: EventRow, y: Json)
    requires EnvelopeHash(h, l, a, x) == a.eventHash == b.eventHash == EnvelopeHash(h, m, b, y)
    ensures l == m && x == y && a == b.(dataText := a.dataText)
  {
    TextIsInjective(Envelope(l, a, x), Envelope(m, b, y));
    EnvelopeShowsPayload(l, a, x, m, b, y);
    EnvelopeShowsOrigin(l, a, x, m, b, y);
  }

  lemma LastEventsAgree(h: Digest, l: string, a: seq<EventRow>, m: string, b: seq<EventRow>)
    requires Verified(h, l, a) && Verified(h, m, b) && a != [] && b != []
    requires LastHash(a) == LastHash(b)
    ensures l == m && SameEvent(a[|a| - 1], b[|b| - 1])
    ensures LastHash(a[..|a| - 1]) == LastHash(b[..|b| - 1])
  {
    var p, q := a[|a| - 1], b[|b| - 1];
    assert RowVerifies(h, l, a, |a| - 1) && RowVerifies(h, m, b, |b| - 1);
    EnvelopeDeterminesEvent(h, l, p, Load(p.dataText).value, m, q, Load(q.dataText).value);
  }

  lemma VerifiedLogDoesNotEndInGenesis(h: Digest, l: string, a: seq<EventRow>)
    requires Verified(h, l, a) && a != []
    ensures LastHash(a) != GENESIS
  {
    assert RowVerifies(h, l, a, |a| - 1);
  }

  /** Tamper evidence: verified logs that end in the same hash are the same
      log, of the same lattice, event by event. */
  lemma {:induction false} LastHashDeterminesLog(h: Digest, l: string, a: seq<EventRow>, m: string, b: seq<EventRow>)
    requires Verified(h, l, a) && Verified(h, m, b)
    requires LastHash(a) == LastHash(b)
    ensures SameLog(a, b) && (a != [] ==> l == m)
  {
    if a != [] && b != [] {
      var c, d := a[..|a| - 1], b[..|b| - 1];
      LastEventsAgree(h, l, a, m, b);
      PrefixVerifies(h, l, a, |c|);
      PrefixVerifies(h, m, b, |d|);
      LastHashDeterminesLog(h, l, c, m, d);
      SameLogExtends(a, b);
    } else if a != [] {
      VerifiedLogDoesNotEndInGenesis(h, l, a);
    } else if b != [] {
      VerifiedLogDoesNotEndInGenesis(h, m, b);
    }
  }

  /** The verifier alone accepts any log cut short: it consults neither the
      audit head nor the numbering. A shorter log is caught exactly by
      comparing its last hash with the head. */
  lemma CutLogPassesAndOnlyHeadShowsIt(h: Digest, lattice: string, head: Head, rows: seq<EventRow>, n: nat)
    requires WellKept(h, lattice, head, rows) && n <= |rows|
    ensures Verified(h, lattice, rows[..n])
    ensures LastHash(rows[..n]) == head.lastHash <==> n == |rows|
  {
    PrefixVerifies(h, lattice, rows, n);
    if LastHash(rows[..n]) == head.lastHash {
      LastHashDeterminesLog(h, lattice, rows[..n], lattice, rows);
    }
    assert rows[..|rows|] == rows;
  }

  /** An accepted log is the kept one exactly when its last hash is the one in
      the head. */
  lemma AcceptedLogIsTheKeptOneIffHeadMatches(h: Digest, lattice: string, head: Head, kept: seq<EventRow>, shown: seq<EventRow>)
    requires WellKept(h, lattice, head, kept) && Verified(h, lattice, shown)
    ensures LastHash(shown) == head.lastHash
       <==> SameLog(shown, kept)
  {
    if LastHash(shown) == head.lastHash {
      LastHashDeterminesLog(h, lattice, shown, lattice, kept);
    }
  }

  /** Numbering is not checked: for any number there is an accepted one-event
      log that carries it. */
  lemma AnyNumberingPasses(h: Digest, lattice: string, n: int)
    ensures exists rows: seq<EventRow> :: Verified(h, lattice, rows) && |rows| == 1 && rows[0].sequence == n
  {
    var e := Draft("", "", Null, "", "", "");
    var row := NewRow(h, "", lattice, Head(n - 1, GENESIS), e);
    var rows := [row];
    LoadReturnsWhatWasWritten(e.data);
    assert Envelope(lattice, row, Null) == Envelope(lattice, row.(eventHash := ""), Null);
    assert RowVerifies(h, lattice, rows, 0);
    assert Verified(h, lattice, rows);
  }
}
