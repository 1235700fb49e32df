/**
 * The hash-chained audit log (src/insurance/services/audit.py). The hash is a parameter: any function
 * from texts to hexadecimal texts.
 */
module AuditChain {
  import opened Wrappers
  import opened Jcs
  import opened JcsReader
  import opened HashChain

  /** A row of audit_events; createdAt is the microsecond ISO text of the timestamp. */
  datatype Event = Event(id: nat, eventType: string, payload: Json, prevHash: string, hash: string, createdAt: string)

  datatype ChainVerification = ChainVerification(ok: bool, events: nat, firstBadId: Option<nat>, detail: string)

  // ------------------------------------------------------------------------- the hashed text

  function Body(eventType: string, payload: Json, createdAt: string): Json {
    Dict([Member("eventType", Text(eventType)), Member("payload", payload), Member("recordedAt", Text(createdAt))])
  }

  lemma BodyIsCanonicalizable(eventType: string, payload: Json, createdAt: string)
    requires Canonicalizable(payload)
    ensures Canonicalizable(Body(eventType, payload, createdAt))
  {
    var body := Body(eventType, payload, createdAt);
    assert "eventType"[0] == 'e' && "payload"[0] == 'p' && "recordedAt"[0] == 'r';
    assert forall m :: m in body.members ==>
             m.value == Text(eventType) || m.value == payload || m.value == Text(createdAt);
  }

  function EventText(eventType: string, payload: Json, createdAt: string): string
    requires Canonicalizable(payload)
  {
    BodyIsCanonicalizable(eventType, payload, createdAt);
    Canon(Body(eventType, payload, createdAt))
  }

  lemma BodyMeaning(t: string, p: Json, at: string)
    requires Canonicalizable(p) && Canonicalizable(Body(t, p, at))
    ensures Meaning(Body(t, p, at)).VObject?
    ensures Meaning(Body(t, p, at)).members
            == map["eventType" := VText(t), "payload" := Meaning(p), "recordedAt" := VText(at)]
  {
    var body := Body(t, p, at);
    var ms := body.members;
    MembersMeaningLookup(body, ms);
    assert "eventType"[0] == 'e' && "payload"[0] == 'p' && "recordedAt"[0] == 'r';
    assert Meaning(Text(t)) == VText(t) && Meaning(Text(at)) == VText(at);
    assert ms[0] in ms && ms[1] in ms && ms[2] in ms;
    var meaning := MembersMeaning(body, ms);
    assert meaning["eventType"] == VText(t) && meaning["payload"] == Meaning(p) && meaning["recordedAt"] == VText(at);
    assert meaning.Keys == {"eventType", "payload", "recordedAt"};
  }

  lemma EntriesDetermine(a: Value, b: Value, c: Value, a': Value, b': Value, c': Value)
    ensures map["eventType" := a, "payload" := b, "recordedAt" := c]
            == map["eventType" := a', "payload" := b', "recordedAt" := c']
            <==> a == a' && b == b' && c == c'
  {
    assert "eventType"[0] == 'e' && "payload"[0] == 'p' && "recordedAt"[0] == 'r';
    var m, m' := map["eventType" := a, "payload" := b, "recordedAt" := c],
      map["eventType" := a', "payload" := b', "recordedAt" := c'];
    assert m["eventType"] == a && m["payload"] == b && m["recordedAt"] == c;
    assert m'["eventType"] == a' && m'["payload"] == b' && m'["recordedAt"] == c';
  }

  lemma SameBodyMeaning(t: string, p: Json, at: string, t': string, p': Json, at': string)
    requires Canonicalizable(p) && Canonicalizable(p') && Canonicalizable(Body(t, p, at))
             && Canonicalizable(Body(t', p', at'))
    ensures Meaning(Body(t, p, at)) == Meaning(Body(t', p', at')) <==> t == t' && Meaning(p) == Meaning(p') && at == at'
  {
    BodyMeaning(t, p, at);
    BodyMeaning(t', p', at');
    EntriesDetermine(VText(t), Meaning(p), VText(at), VText(t'), Meaning(p'), VText(at'));
  }

  /** The hashed text determines, and is determined by, type, payload value and time. */
  lemma EventTextPins(t: string, p: Json, at: string, t': string, p': Json, at': string)
    requires Canonicalizable(p) && Canonicalizable(p')
    ensures EventText(t, p, at) == EventText(t', p', at') <==> t == t' && Meaning(p) == Meaning(p') && at == at'
  {
    BodyIsCanonicalizable(t, p, at);
    BodyIsCanonicalizable(t', p', at');
    CanonEqualIffSameValue(Body(t, p, at), Body(t', p', at'));
    SameBodyMeaning(t, p, at, t', p', at');
  }

  // ------------------------------------------------------------------------------- the log

  predicate Readable(rows: seq<Event>) { forall i :: 0 <= i < |rows| ==> Canonicalizable(rows[i].payload) }

  function LinkOf(e: Event): Link
    requires Canonicalizable(e.payload)
  {
    Link(e.prevHash, e.hash, EventText(e.eventType, e.payload, e.createdAt))
  }

  function Links(rows: seq<Event>): (links: seq<Link>)
    requires Readable(rows)
    ensures |links| == |rows| && forall i :: 0 <= i < |rows| ==> links[i] == LinkOf(rows[i])
  {
    seq(|rows|, i requires 0 <= i < |rows| => LinkOf(rows[i]))
  }

  predicate HashTaken(events: seq<Event>, hash: string) { exists i :: 0 <= i < |events| && events[i].hash == hash }

  function LastEventHash(events: seq<Event>): string {
    if events == [] then Genesis() else events[|events| - 1].hash
  }

  /** Appending one event: refused when the payload has no canonical text or the hash is not unique. */
  function Recorded(h: Hash, events: seq<Event>, eventType: string, payload: Json,
                    createdAt: string): Result<seq<Event>>
    requires Proper(payload)
  {
    if !Representable(payload) then Err(NotCanonicalizable)
    else
      var hash := LinkHash(h, LastEventHash(events), EventText(eventType, payload, createdAt));
      if HashTaken(events, hash) then Err(AuditHashTaken)
      else Ok(events + [Event(|events|, eventType, payload, LastEventHash(events), hash, createdAt)])
  }

  class AuditLog {
    const h: Hash
    var events: seq<Event>

    constructor (h: Hash)
      ensures this.h == h && events == []
    {
      this.h := h;
      events := [];
    }

    method Record(eventType: string, payload: Json, createdAt: string) returns (r: Result<Event>)
      requires Proper(payload)
      modifies this`events
      ensures var spec := Recorded(h, old(events), eventType, payload, createdAt);
              && (r.Ok? <==> spec.Ok?)
              && (r.Ok? ==> events == spec.value && events[|events| - 1] == r.value)
              && (r.Err? ==> events == old(events) && r.reason == spec.reason)
    {
      var prevHash := if events == [] then Genesis() else events[|events| - 1].hash;
      if !Representable(payload) { return Err(NotCanonicalizable); }
      var hash := LinkHash(h, prevHash, EventText(eventType, payload, createdAt));
      if exists i :: 0 <= i < |events| && events[i].hash == hash {
        return Err(AuditHashTaken);
      }
      var event := Event(|events|, eventType, payload, prevHash, hash, createdAt);
      events := events + [event];
      return Ok(event);
    }

    /** The rows up to the first whose payload has no canonical text, at which verify_chain raises. */
    method ReadablePrefix(rows: seq<Event>) returns (n: nat)
      requires ProperRows(rows)
      ensures n <= |rows| && Readable(rows[..n]) && (n < |rows| ==> !Representable(rows[n].payload))
    {
      n := 0;
      while n < |rows| && Representable(rows[n].payload)
        invariant n <= |rows| && Readable(rows[..n])
      {
        assert rows[..n + 1] == rows[..n] + [rows[n]];
        n := n + 1;
      }
    }

    /**
     * verify_chain: names the first row that breaks the chain, and how it breaks it; raises when it meets a payload
     * with no canonical text before any break.
     */
    method VerifyChain(rows: seq<Event>) returns (r: Result<ChainVerification>)
      requires ProperRows(rows)
      ensures r.Ok? && r.value.ok <==> Readable(rows) && Chained(h, Links(rows))
      ensures r.Ok? && r.value.ok ==> r.value.events == |rows| && r.value.firstBadId == None
      ensures r.Ok? && !r.value.ok ==>
                exists n, i :: 0 <= i < n <= |rows| && r.value.firstBadId == Some(rows[i].id)
                  && BreaksAt(rows, n, i, r.value.detail)
      ensures r.Err? ==> exists n :: 0 <= n < |rows| && RaisesAt(rows, n)
    {
      var n := ReadablePrefix(rows);
      var broken := VerifyLinks(h, Links(rows[..n]));
      assert n == |rows| ==> rows[..n] == rows;
      if broken.Some? {
        BrokenPrefix(h, rows, n);
        var i := broken.value.index;
        assert BreaksAt(rows, n, i, broken.value.detail);
        return Ok(ChainVerification(false, rows[i].id, Some(rows[i].id), broken.value.detail));
      }
      if n < |rows| {
        assert RaisesAt(rows, n);
        return Err(NotCanonicalizable);
      }
      return Ok(ChainVerification(true, |rows|, None, ""));
    }

    /** Among the first n rows, which are readable, row i is the first to break the chain. */
    ghost predicate BreaksAt(rows: seq<Event>, n: nat, i: nat, detail: string)
      requires n <= |rows|
    {
      Readable(rows[..n]) && IsFirstBreak(h, Links(rows[..n]), Break(i, detail))
    }

    /** The rows before n are readable and unbroken, and row n has no canonical text. */
    ghost predicate RaisesAt(rows: seq<Event>, n: nat)
      requires n < |rows|
    {
      Readable(rows[..n]) && Chained(h, Links(rows[..n])) && !Representable(rows[n].payload)
    }
  }

  /** Payloads as a JSON column can give them back: any JSON value, readable by the canonicaliser or not. */
  predicate ProperRows(rows: seq<Event>) { forall i :: 0 <= i < |rows| ==> Proper(rows[i].payload) }

  /** A chain with a broken prefix is broken. */
  lemma BrokenPrefix(h: Hash, rows: seq<Event>, n: nat)
    requires n <= |rows| && Readable(rows[..n]) && !Chained(h, Links(rows[..n]))
    ensures Readable(rows) ==> !Chained(h, Links(rows))
  {
    if Readable(rows) && Chained(h, Links(rows)) {
      assert Links(rows)[..n] == Links(rows[..n]);
      ChainedPrefix(h, Links(rows), n);
    }
  }

  // ---------------------------------------------------------------------- what they agree on

  /** One event twice: as recorded, and as a JSONB column gives it back (member order may differ). */
  predicate SameRow(a: Event, b: Event)
    requires Canonicalizable(a.payload) && Canonicalizable(b.payload)
  {
    a.eventType == b.eventType && Meaning(a.payload) == Meaning(b.payload)
    && a.prevHash == b.prevHash && a.hash == b.hash && a.createdAt == b.createdAt
  }

  predicate SameRows(a: seq<Event>, b: seq<Event>)
    requires Readable(a) && Readable(b)
  {
    |a| == |b| && forall i :: 0 <= i < |a| ==> SameRow(a[i], b[i])
  }

  /** The same events, up to the payloads' JSON values, are exactly the same links. */
  lemma SameRowsIffSameLinks(a: seq<Event>, b: seq<Event>)
    requires Readable(a) && Readable(b)
    ensures SameRows(a, b) <==> Links(a) == Links(b)
  {
    if |a| == |b| {
      forall i | 0 <= i < |a| ensures SameRow(a[i], b[i]) <==> LinkOf(a[i]) == LinkOf(b[i]) {
        EventTextPins(a[i].eventType, a[i].payload, a[i].createdAt, b[i].eventType, b[i].payload, b[i].createdAt);
      }
      if Links(a) == Links(b) {
        forall i | 0 <= i < |a| ensures SameRow(a[i], b[i]) { assert Links(a)[i] == Links(b)[i]; }
      }
    }
  }

  lemma LastOfLinks(rows: seq<Event>)
    requires Readable(rows)
    ensures LastHash(Links(rows)) == LastEventHash(rows)
  {
  }

  datatype Entry = Entry(eventType: string, payload: Json, createdAt: string)

  predicate ProperEntries(entries: seq<Entry>) { forall i :: 0 <= i < |entries| ==> Proper(entries[i].payload) }

  /** The log after a history of record calls, the refused ones leaving it unchanged. */
  function History(h: Hash, entries: seq<Entry>): (events: seq<Event>)
    requires ProperEntries(entries)
    ensures Readable(events)
  {
    if entries == [] then []
    else
      var before := History(h, entries[..|entries| - 1]);
      var e := entries[|entries| - 1];
      match Recorded(h, before, e.eventType, e.payload, e.createdAt)
      case Ok(after) => after
      case Err(_) => before
  }

  lemma RecordingExtendsChain(h: Hash, events: seq<Event>, e: Entry)
    requires Readable(events) && Chained(h, Links(events)) && Proper(e.payload)
    ensures var r := Recorded(h, events, e.eventType, e.payload, e.createdAt);
            r.Ok? ==> Readable(r.value) && Chained(h, Links(r.value))
  {
    var r := Recorded(h, events, e.eventType, e.payload, e.createdAt);
    if r.Ok? {
      var links := Links(events);
      LastOfLinks(events);
      var text := EventText(e.eventType, e.payload, e.createdAt);
      ChainedSnoc(h, links, text);
      assert Links(r.value) == links + [Link(LastHash(links), LinkHash(h, LastHash(links), text), text)];
    }
  }

  lemma {:induction false} HistoryIsChained(h: Hash, entries: seq<Entry>)
    requires ProperEntries(entries)
    ensures Chained(h, Links(History(h, entries)))
    decreases |entries|
  {
    if entries != [] {
      HistoryIsChained(h, entries[..|entries| - 1]);
      RecordingExtendsChain(h, History(h, entries[..|entries| - 1]), entries[|entries| - 1]);
    }
  }

  /** The verifier accepts every recorded history, however the database rearranged the payloads. */
  lemma RecordedHistoryVerifies(h: Hash, entries: seq<Entry>, rows: seq<Event>)
    requires ProperEntries(entries) && Readable(rows) && SameRows(History(h, entries), rows)
    ensures Chained(h, Links(rows))
  {
    HistoryIsChained(h, entries);
    SameRowsIffSameLinks(History(h, entries), rows);
  }

  /**
   * Tamper evidence: two accepted chains of one length with the same last hash are the same,
   * event by event; so no change to an earlier event that keeps the last hash is accepted.
   */
  lemma LastHashPinsHistory(h: Hash, a: seq<Event>, b: seq<Event>)
    requires Ideal(h) && Readable(a) && Readable(b) && Chained(h, Links(a)) && Chained(h, Links(b))
    requires |a| == |b| && LastEventHash(a) == LastEventHash(b)
    ensures SameRows(a, b)
  {
    LastOfLinks(a);
    LastOfLinks(b);
    LastHashPinsLinks(h, Links(a), Links(b));
    SameRowsIffSameLinks(a, b);
  }

  /** When no text hashes to the genesis value, truncation and extension are caught as well. */
  lemma LastHashPinsWholeHistory(h: Hash, a: seq<Event>, b: seq<Event>)
    requires Ideal(h) && NeverGenesis(h)
    requires Readable(a) && Readable(b) && Chained(h, Links(a)) && Chained(h, Links(b))
    requires LastEventHash(a) == LastEventHash(b)
    ensures SameRows(a, b)
  {
    LastOfLinks(a);
    LastOfLinks(b);
    LastHashPinsLength(h, Links(a), Links(b));
    LastHashPinsHistory(h, a, b);
  }

  /** The uniqueness constraint on hashes then never refuses an event. */
  lemma RecordNeverCollides(h: Hash, entries: seq<Entry>, e: Entry)
    requires Ideal(h) && NeverGenesis(h) && ProperEntries(entries) && Canonicalizable(e.payload)
    ensures Recorded(h, History(h, entries), e.eventType, e.payload, e.createdAt).Ok?
  {
    var events := History(h, entries);
    HistoryIsChained(h, entries);
    var text := EventText(e.eventType, e.payload, e.createdAt);
    LastOfLinks(events);
    forall i | 0 <= i < |events| ensures events[i].hash != LinkHash(h, LastEventHash(events), text) {
      HashesDistinct(h, Links(events), text, i);
    }
  }
}
