/** Effective-dated rate tables of one product version (src/insurance/services/lifecycle.py:111-170). */
module RateTables {
  import opened Wrappers

  /** A date as a day number; the last representable date is the end of an open window. */
  type Date = nat

  const DATE_MAX: Date := 3_652_059

  /** A rate table's window; `to` is exclusive at lookup, None means open-ended. */
  datatype Window = Window(from: Date, to: Option<Date>, rates: nat)

  /** A base rate: an integer, or a value of another type. */
  datatype Rate = Bp(n: int) | NotAnInteger

  predicate RatesWellFormed(base: Option<map<string, Rate>>) {
    && base.Some? && base.value != map[]
    && forall k :: k in base.value ==> base.value[k].Bp? && 0 <= base.value[k].n <= 10_000
  }

  function EndOf(w: Window): Date { if w.to.Some? then w.to.value else DATE_MAX }

  /** The insertion test: ends taken inclusively. */
  predicate Overlap(a: Window, b: Window) { a.from <= EndOf(b) && b.from <= EndOf(a) }

  predicate ValidDates(w: Window) { w.from <= DATE_MAX && EndOf(w) <= DATE_MAX }

  /** CHECK effective_to IS NULL OR effective_to > effective_from */
  predicate WindowCheck(w: Window) { w.to.None? || w.to.value > w.from }

  /** add_rate_table on the tables of one product. */
  function Added(tables: seq<Window>, w: Window, base: Option<map<string, Rate>>): Result<seq<Window>> {
    if !RatesWellFormed(base) then Err(RateTableMalformed)
    else if exists i :: 0 <= i < |tables| && Overlap(tables[i], w) then Err(RateWindowOverlap)
    else if !WindowCheck(w) then Err(RateWindowCheck)
    else Ok(tables + [w])
  }

  /** The lookup test: the end is exclusive. */
  predicate Covers(w: Window, on: Date) { w.from <= on && (w.to.None? || w.to.value > on) }

  /** No date is covered twice. */
  ghost predicate PairwiseDisjoint(tables: seq<Window>) {
    forall i, j, on: Date :: 0 <= i < j < |tables| ==> !(Covers(tables[i], on) && Covers(tables[j], on))
  }

  /** The stronger fact insertion keeps: windows with inclusive ends do not meet. */
  predicate Separated(tables: seq<Window>) {
    && (forall i :: 0 <= i < |tables| ==> WindowCheck(tables[i]) && ValidDates(tables[i]))
    && (forall i, j :: 0 <= i < j < |tables| ==> !Overlap(tables[i], tables[j]))
  }

  class RateBook {
    var tables: seq<Window>

    constructor ()
      ensures tables == []
    {
      tables := [];
    }

    method AddRateTable(w: Window, base: Option<map<string, Rate>>) returns (r: Result<Window>)
      modifies this
      ensures var spec := Added(old(tables), w, base);
              && (r.Ok? <==> spec.Ok?)
              && (r.Ok? ==> tables == spec.value && r.value == w)
              && (r.Err? ==> tables == old(tables) && r.reason == spec.reason)
    {
      if base.None? || base.value == map[] { return Err(RateTableMalformed); }
      if exists k :: k in base.value && (!base.value[k].Bp? || base.value[k].n < 0 || base.value[k].n > 10_000) {
        return Err(RateTableMalformed);
      }
      for i := 0 to |tables|
        invariant tables == old(tables)
        invariant forall j :: 0 <= j < i ==> !Overlap(tables[j], w)
      {
        var rtEnd := if tables[i].to.Some? then tables[i].to.value else DATE_MAX;
        var newEnd := if w.to.Some? then w.to.value else DATE_MAX;
        if tables[i].from <= newEnd && w.from <= rtEnd { return Err(RateWindowOverlap); }
      }
      if w.to.Some? && !(w.to.value > w.from) { return Err(RateWindowCheck); }
      tables := tables + [w];
      return Ok(w);
    }
  }

  /** The answer of the lookup query: the tables starting on or before the date, latest start first. */
  ghost predicate IsQueryAnswer(tables: seq<Window>, on: Date, rows: seq<Window>) {
    && (forall w :: w in rows <==> w in tables && w.from <= on)
    && (forall i, j :: 0 <= i < j < |rows| ==> rows[i].from >= rows[j].from)
  }

  /** effective_rate_table over the query's rows. */
  method EffectiveRateTable(tables: seq<Window>, on: Date, rows: seq<Window>) returns (r: Result<Window>)
    requires IsQueryAnswer(tables, on, rows)
    ensures r.Ok? ==> r.value in tables && Covers(r.value, on)
    ensures r.Err? <==> forall i :: 0 <= i < |tables| ==> !Covers(tables[i], on)
    ensures Separated(tables) && r.Ok? ==> forall w :: w in tables && w.from <= on ==> w.from <= r.value.from
  {
    for i := 0 to |rows|
      invariant forall j :: 0 <= j < i ==> !Covers(rows[j], on)
    {
      if rows[i].to.None? || rows[i].to.value > on {
        assert rows[i] in rows;
        if Separated(tables) { FoundStartsLatest(tables, on, rows, i); }
        return Ok(rows[i]);
      }
    }
    forall i | 0 <= i < |tables| ensures !Covers(tables[i], on) {
      assert tables[i] in tables;
      if tables[i].from <= on {
        assert tables[i] in rows;
      }
    }
    return Err(NoEffectiveRateTable);
  }

  /** In separated windows, the table covering a date starts later than any other that has started. */
  lemma FoundStartsLatest(tables: seq<Window>, on: Date, rows: seq<Window>, i: nat)
    requires IsQueryAnswer(tables, on, rows) && Separated(tables) && i < |rows| && Covers(rows[i], on)
    ensures forall w :: w in tables && w.from <= on ==> w.from <= rows[i].from
  {
    forall w | w in tables && w.from <= on ensures w.from <= rows[i].from {
      assert rows[i] in rows;
      var a :| 0 <= a < |tables| && tables[a] == w;
      var b :| 0 <= b < |tables| && tables[b] == rows[i];
      assert a < b ==> !Overlap(tables[a], tables[b]);
      assert b < a ==> !Overlap(tables[b], tables[a]);
    }
  }

  // ------------------------------------------------------------------------------- whole runs

  datatype Insertion = Insertion(window: Window, base: Option<map<string, Rate>>)

  /** The tables after any sequence of calls, refused ones leaving them unchanged. */
  function Book(calls: seq<Insertion>): seq<Window> {
    if calls == [] then []
    else
      var before := Book(calls[..|calls| - 1]);
      var c := calls[|calls| - 1];
      match Added(before, c.window, c.base)
      case Ok(after) => after
      case Err(_) => before
  }

  predicate DatesInRange(calls: seq<Insertion>) {
    forall i :: 0 <= i < |calls| ==> ValidDates(calls[i].window)
  }

  lemma {:induction false} BookSeparated(calls: seq<Insertion>)
    requires DatesInRange(calls)
    ensures Separated(Book(calls))
    decreases |calls|
  {
    if calls != [] {
      BookSeparated(calls[..|calls| - 1]);
    }
  }

  /** Inclusive separation at insertion gives exclusive disjointness at lookup. */
  lemma SeparatedIsDisjoint(tables: seq<Window>)
    requires Separated(tables)
    ensures PairwiseDisjoint(tables)
  {
    forall i, j, on: Date | 0 <= i < j < |tables| && Covers(tables[i], on)
      ensures !Covers(tables[j], on)
    {
      assert !Overlap(tables[i], tables[j]);
    }
  }

  /** Every reachable book covers no date twice. */
  lemma BookDisjoint(calls: seq<Insertion>)
    requires DatesInRange(calls)
    ensures PairwiseDisjoint(Book(calls))
  {
    BookSeparated(calls);
    SeparatedIsDisjoint(Book(calls));
  }

  /** In a disjoint book the table covering a date is unique. */
  lemma CoveringTableUnique(tables: seq<Window>, on: Date, v: Window, w: Window)
    requires PairwiseDisjoint(tables) && v in tables && w in tables && Covers(v, on) && Covers(w, on)
    ensures v == w
  {
    var i :| 0 <= i < |tables| && tables[i] == v;
    var j :| 0 <= j < |tables| && tables[j] == w;
  }

  /** Which date lookup returns a table for, and which: exactly the one table that covers it. */
  method LookUpInBook(calls: seq<Insertion>, on: Date, rows: seq<Window>) returns (r: Result<Window>)
    requires DatesInRange(calls) && IsQueryAnswer(Book(calls), on, rows)
    ensures r.Ok? <==> exists w :: w in Book(calls) && Covers(w, on)
    ensures r.Ok? ==> forall w :: w in Book(calls) && Covers(w, on) <==> w == r.value
    ensures r.Ok? ==> forall w :: w in Book(calls) && w.from <= on ==> w.from <= r.value.from
  {
    BookSeparated(calls);
    BookDisjoint(calls);
    r := EffectiveRateTable(Book(calls), on, rows);
    if r.Ok? {
      forall w | w in Book(calls) && Covers(w, on) ensures w == r.value {
        CoveringTableUnique(Book(calls), on, w, r.value);
      }
    }
  }

  // ------------------------------------------------- what the inclusive test refuses needlessly

  /** Some date would have two tables. */
  ghost predicate ShareADate(a: Window, b: Window) { exists on: Date :: Covers(a, on) && Covers(b, on) }

  /** One window begins on the day the other ends. */
  predicate Abut(a: Window, b: Window) { a.to == Some(b.from) || b.to == Some(a.from) }

  predicate Legal(w: Window) { WindowCheck(w) && ValidDates(w) }

  /** The insertion test refuses exactly the windows that share a date, and those that abut and share none. */
  lemma OverlapIff(a: Window, b: Window)
    requires Legal(a) && Legal(b)
    ensures Overlap(a, b) <==> ShareADate(a, b) || Abut(a, b)
    ensures Abut(a, b) ==> !ShareADate(a, b)
  {
    var later := if a.from <= b.from then b.from else a.from;
    assert Overlap(a, b) && !Abut(a, b) ==> Covers(a, later) && Covers(b, later);
  }

  /** The property the insertion test is for: a refused window would cover some date a second time. */
  ghost predicate RefusedNeedlessly(tables: seq<Window>, w: Window, base: Option<map<string, Rate>>) {
    Added(tables, w, base) == Err(RateWindowOverlap) && PairwiseDisjoint(tables + [w])
  }

  predicate OnlyAbuts(tables: seq<Window>, w: Window) {
    && (exists i :: 0 <= i < |tables| && Abut(tables[i], w))
    && (forall i :: 0 <= i < |tables| && Overlap(tables[i], w) ==> Abut(tables[i], w))
  }

  lemma NeedlessIff(tables: seq<Window>, w: Window, base: Option<map<string, Rate>>)
    requires Separated(tables) && Legal(w) && RatesWellFormed(base)
    ensures RefusedNeedlessly(tables, w, base) <==> OnlyAbuts(tables, w)
  {
    var after := tables + [w];
    SeparatedIsDisjoint(tables);
    forall i | 0 <= i < |tables|
      ensures Overlap(tables[i], w) <==> ShareADate(tables[i], w) || Abut(tables[i], w)
      ensures Abut(tables[i], w) ==> !ShareADate(tables[i], w)
    {
      OverlapIff(tables[i], w);
    }
    if PairwiseDisjoint(after) {
      forall i | 0 <= i < |tables| ensures !ShareADate(tables[i], w) {
        assert after[i] == tables[i] && after[|tables|] == w;
      }
    }
    if OnlyAbuts(tables, w) { DisjointWith(tables, w); }
  }

  lemma DisjointWith(tables: seq<Window>, w: Window)
    requires PairwiseDisjoint(tables)
    requires forall i :: 0 <= i < |tables| ==> !ShareADate(tables[i], w)
    ensures PairwiseDisjoint(tables + [w])
  {
    var after := tables + [w];
    forall i, j, on: Date | 0 <= i < j < |after| && Covers(after[i], on) ensures !Covers(after[j], on) {
      assert j == |tables| ==> after[j] == w && !ShareADate(tables[i], w);
    }
  }

  /**
   * After any calls, a legal window is refused although no date would be covered twice exactly when it meets
   * the existing tables at their ends only.
   */
  lemma RefusedNeedlesslyIff(calls: seq<Insertion>, w: Window, base: Option<map<string, Rate>>)
    requires DatesInRange(calls) && Legal(w) && RatesWellFormed(base)
    ensures RefusedNeedlessly(Book(calls), w, base) <==> OnlyAbuts(Book(calls), w)
  {
    BookSeparated(calls);
    NeedlessIff(Book(calls), w, base);
  }

  /** A window beginning on the day another one ends is such a case. */
  lemma AdjacentWindowsRefused()
    ensures var base: Option<map<string, Rate>> := Some(map["a" := Bp(0)]);
            var first, second := Window(0, Some(10), 0), Window(10, None, 0);
            RefusedNeedlessly(Book([Insertion(first, base)]), second, base)
  {
    var base: Option<map<string, Rate>> := Some(map["a" := Bp(0)]);
    var first, second := Window(0, Some(10), 0), Window(10, None, 0);
    var calls := [Insertion(first, base)];
    assert "a" in base.value;
    assert calls[..0] == [] && Book([]) == [];
    assert Book(calls) == [first];
    assert Abut(Book(calls)[0], second);
    RefusedNeedlesslyIff(calls, second, base);
  }
}
