/** `utils/DaySchedule`: the day-temperature periods of one weekday, kept in a
    `TreeSet` ordered (and made unique) by start minute, merged on insertion
    and limited to five. */
module DaySchedules {
  import opened Common
  import opened Periods

  /** The capacity `addDayPeriod` enforces. */
  const MAX_PERIODS := 5

  /** TreeSet order under `Period.compareTo`: starts strictly increase, so no
      two stored periods share a start. */
  predicate StrictlySorted(s: seq<Period>) {
    forall i, j :: 0 <= i < j < |s| ==> Start(s[i]) < Start(s[j])
  }

  /** Some stored period compares equal to a period starting at `key`. */
  predicate KeyIn(s: seq<Period>, key: int) {
    exists i :: 0 <= i < |s| && Start(s[i]) == key
  }

  // ---------------------------------------------------------------------
  // The TreeSet operations the class uses, on a sorted sequence.
  // ---------------------------------------------------------------------

  /** A key is stored exactly when the first period or one of the rest has
      it. */
  lemma KeyInTail(s: seq<Period>, key: int)
    requires s != []
    ensures KeyIn(s, key) <==> Start(s[0]) == key || KeyIn(s[1..], key)
  {
    if KeyIn(s, key) {
      var i :| 0 <= i < |s| && Start(s[i]) == key;
      if i > 0 { assert Start(s[1..][i - 1]) == key; }
    }
    if KeyIn(s[1..], key) {
      var i :| 0 <= i < |s[1..]| && Start(s[1..][i]) == key;
      assert Start(s[i + 1]) == key;
    }
  }

  /** In TreeSet order every period after the first starts after it. */
  lemma TailStartsAfterHead(s: seq<Period>)
    requires StrictlySorted(s) && s != []
    ensures forall q :: q in s[1..] ==> Start(s[0]) < Start(q)
  {
    forall q | q in s[1..] ensures Start(s[0]) < Start(q) {
      var i :| 0 <= i < |s[1..]| && s[1..][i] == q;
      assert s[i + 1] == q;
    }
  }

  /** Number of leading periods whose start is at most x. */
  function Split(s: seq<Period>, x: int): (k: nat)
    ensures k <= |s|
    ensures forall i :: 0 <= i < k ==> Start(s[i]) <= x
    ensures StrictlySorted(s) ==> forall i :: k <= i < |s| ==> Start(s[i]) > x
  {
    if s == [] || Start(s[0]) > x then 0 else 1 + Split(s[1..], x)
  }

  /** `TreeSet.floor(p)`: the stored period with the greatest start not
      after p's start. */
  function Floor(s: seq<Period>, p: Period): (r: Option<Period>)
    requires StrictlySorted(s)
    ensures r.Some? ==> r.value in s && Start(r.value) <= Start(p)
    ensures r.Some? ==> forall q :: q in s && Start(q) <= Start(p) ==> Start(q) <= Start(r.value)
    ensures r.None? ==> forall q :: q in s ==> Start(q) > Start(p)
  {
    var k := Split(s, Start(p));
    if k > 0 then Some(s[k - 1]) else None
  }

  /** `TreeSet.higher(p)`: the stored period with the least start after p's
      start. */
  function Higher(s: seq<Period>, p: Period): (r: Option<Period>)
    requires StrictlySorted(s)
    ensures r.Some? ==> r.value in s && Start(r.value) > Start(p)
    ensures r.Some? ==> forall q :: q in s && Start(q) > Start(p) ==> Start(r.value) <= Start(q)
    ensures r.None? ==> forall q :: q in s ==> Start(q) <= Start(p)
  {
    var k := Split(s, Start(p));
    if k < |s| then Some(s[k]) else None
  }

  /** `TreeSet.remove(p)`: drops the stored period whose start equals `key`,
      if there is one. */
  function RemoveKey(s: seq<Period>, key: int): (r: seq<Period>)
    ensures forall q :: q in r <==> q in s && Start(q) != key
    ensures StrictlySorted(s) ==> StrictlySorted(r)
    ensures StrictlySorted(s) ==> |r| == if KeyIn(s, key) then |s| - 1 else |s|
  {
    if s == [] then []
    else
      var rest := RemoveKey(s[1..], key);
      assert StrictlySorted(s) ==> StrictlySorted(s[1..]);
      assert StrictlySorted(s) && Start(s[0]) == key ==> !KeyIn(s[1..], key);
      KeyInTail(s, key);
      if Start(s[0]) == key then rest else [s[0]] + rest
  }

  /** `TreeSet.add(p)`: inserts p in start order unless a stored period
      already has p's start, in which case the set is unchanged. */
  function Insert(s: seq<Period>, p: Period): (r: seq<Period>)
    requires StrictlySorted(s)
    ensures StrictlySorted(r)
    ensures forall q :: q in r <==> q in s || (q == p && !KeyIn(s, Start(p)))
    ensures |r| == if KeyIn(s, Start(p)) then |s| else |s| + 1
  {
    if s == [] then [p]
    else if Start(p) < Start(s[0]) then
      assert !KeyIn(s, Start(p));
      [p] + s
    else if Start(p) == Start(s[0]) then s
    else
      var rest := Insert(s[1..], p);
      KeyInTail(s, Start(p));
      TailStartsAfterHead(s);
      assert forall j :: 0 <= j < |rest| ==> rest[j] in rest;
      [s[0]] + rest
  }

  /** In a TreeSet a start identifies the stored period. */
  lemma StartIdentifies(s: seq<Period>, a: Period, b: Period)
    requires StrictlySorted(s) && a in s && b in s && Start(a) == Start(b)
    ensures a == b
  {
    var i :| 0 <= i < |s| && s[i] == a;
    var j :| 0 <= j < |s| && s[j] == b;
    assert i == j;
  }

  lemma KeyInMember(s: seq<Period>, q: Period)
    requires q in s
    ensures KeyIn(s, Start(q))
  {
    var i :| 0 <= i < |s| && s[i] == q;
  }

  // ---------------------------------------------------------------------
  // addDayPeriod
  // ---------------------------------------------------------------------

  /** The floor neighbour intersects the new period, so it is merged. */
  predicate FloorMerges(s: seq<Period>, p: Period)
    requires StrictlySorted(s)
  {
    Floor(s, p).Some? && Intersects(Floor(s, p).value, p)
  }

  /** The period after the floor merge step. */
  function AfterFloor(s: seq<Period>, p: Period): Period
    requires StrictlySorted(s)
  {
    if FloorMerges(s, p) then Combine(Floor(s, p).value, p).value else p
  }

  /** The higher neighbour intersects the period after the floor step, so it
      is merged too. */
  predicate HigherMerges(s: seq<Period>, p: Period)
    requires StrictlySorted(s)
  {
    Higher(s, p).Some? && Intersects(Higher(s, p).value, AfterFloor(s, p))
  }

  /** The set left after the floor merge step. */
  function FloorRest(s: seq<Period>, p: Period): seq<Period>
    requires StrictlySorted(s)
  {
    if FloorMerges(s, p) then RemoveKey(s, Start(Floor(s, p).value)) else s
  }

  /** The two merge steps of `addDayPeriod`: the set left after removing the
      merged neighbours, and the period to insert. */
  function MergeNeighbours(s: seq<Period>, p: Period): (m: (seq<Period>, Period))
    requires StrictlySorted(s)
    ensures StrictlySorted(m.0)
  {
    var s1 := FloorRest(s, p);
    var t1 := AfterFloor(s, p);
    if HigherMerges(s, p) then
      (RemoveKey(s1, Start(Higher(s, p).value)), Combine(Higher(s, p).value, t1).value)
    else (s1, t1)
  }

  /** What the floor step achieves: the merged period covers the new period
      and the floor neighbour, it starts no later than the new period, only
      the floor neighbour was removed, and nothing left shares its start. */
  lemma FloorStep(s: seq<Period>, p: Period)
    requires StrictlySorted(s)
    ensures StrictlySorted(FloorRest(s, p))
    ensures !KeyIn(FloorRest(s, p), Start(AfterFloor(s, p)))
    ensures Start(AfterFloor(s, p)) <= Start(p)
    ensures forall q :: q in FloorRest(s, p) <==> q in s && !(FloorMerges(s, p) && q == Floor(s, p).value)
    ensures |FloorRest(s, p)| == |s| - (if FloorMerges(s, p) then 1 else 0)
    ensures forall x :: Covers(AfterFloor(s, p), x) <==>
      Covers(p, x) || (FloorMerges(s, p) && Covers(Floor(s, p).value, x))
  {
    if FloorMerges(s, p) {
      var f := Floor(s, p).value;
      CombineIsUnion(f, p);
      KeyInMember(s, f);
      forall q | q in s && Start(q) == Start(f) ensures q == f { StartIdentifies(s, q, f); }
    }
  }

  /** What the merge steps achieve: the period to insert covers exactly the
      new period and the merged neighbours, no remaining period shares its
      start, and only the merged neighbours were removed. */
  lemma MergeNeighboursFacts(s: seq<Period>, p: Period)
    requires StrictlySorted(s)
    ensures var (rest, t) := MergeNeighbours(s, p);
      && !KeyIn(rest, Start(t))
      && (forall x :: Covers(t, x) <==>
            || Covers(p, x)
            || (FloorMerges(s, p) && Covers(Floor(s, p).value, x))
            || (HigherMerges(s, p) && Covers(Higher(s, p).value, x)))
      && (forall q :: q in rest <==>
            && q in s
            && !(FloorMerges(s, p) && q == Floor(s, p).value)
            && !(HigherMerges(s, p) && q == Higher(s, p).value))
      && |rest| == |s| - (if FloorMerges(s, p) then 1 else 0) - (if HigherMerges(s, p) then 1 else 0)
  {
    FloorStep(s, p);
    if HigherMerges(s, p) {
      var h := Higher(s, p).value;
      assert h in FloorRest(s, p);
      HigherStep(FloorRest(s, p), AfterFloor(s, p), h);
    }
  }

  /** The higher step on its own: merging a stored period that starts after
      the period to insert removes exactly that one, and the merged period
      keeps a start no remaining period has. */
  lemma HigherStep(s1: seq<Period>, t1: Period, h: Period)
    requires StrictlySorted(s1) && h in s1 && Intersects(h, t1)
    requires !KeyIn(s1, Start(t1)) && Start(t1) < Start(h)
    ensures var rest, t := RemoveKey(s1, Start(h)), Combine(h, t1).value;
      && !KeyIn(rest, Start(t))
      && (forall x :: Covers(t, x) <==> Covers(h, x) || Covers(t1, x))
      && (forall q :: q in rest <==> q in s1 && q != h)
      && |rest| == |s1| - 1
  {
    CombineIsUnion(h, t1);
    KeyInMember(s1, h);
    forall q | q in s1 && Start(q) == Start(h) ensures q == h { StartIdentifies(s1, q, h); }
  }

  /** What `addDayPeriod` leaves behind: `Added` with the new set, or
      `TooMany` with the set as it stood when the exception was thrown, after
      the merge removals. */
  datatype AddOutcome = Added(periods: seq<Period>) | TooMany(periods: seq<Period>)

  /** `addDayPeriod` on the stored set. */
  function Add(s: seq<Period>, p: Period): (r: AddOutcome)
    requires StrictlySorted(s)
    ensures StrictlySorted(r.periods)
    ensures r.Added? ==> |r.periods| <= MAX_PERIODS
  {
    var (rest, toAdd) := MergeNeighbours(s, p);
    if |rest| > 4 then TooMany(rest) else Added(Insert(rest, toAdd))
  }

  /** From at most five periods, the call throws exactly when five are stored
      and neither neighbour merges; a throwing call has removed nothing. */
  lemma AddThrowsOnlyWhenFull(s: seq<Period>, p: Period)
    requires StrictlySorted(s) && |s| <= MAX_PERIODS
    ensures Add(s, p).TooMany? <==> |s| == MAX_PERIODS && !FloorMerges(s, p) && !HigherMerges(s, p)
    ensures Add(s, p).TooMany? ==> Add(s, p).periods == s
  {
    MergeNeighboursFacts(s, p);
    var rest := MergeNeighbours(s, p).0;
    if !FloorMerges(s, p) && !HigherMerges(s, p) {
      assert rest == s;
    }
  }

  /** A successful call stores a period covering exactly the new period and
      the merged neighbours, keeps every other stored period, and adds
      nothing else. */
  lemma AddCoversAndKeepsOthers(s: seq<Period>, p: Period)
    requires StrictlySorted(s)
    ensures var r := Add(s, p);
      r.Added? ==>
        && (exists t :: t in r.periods && Start(t) <= Start(p) && End(p) <= End(t)
              && forall x :: Covers(t, x) <==>
                   || Covers(p, x)
                   || (FloorMerges(s, p) && Covers(Floor(s, p).value, x))
                   || (HigherMerges(s, p) && Covers(Higher(s, p).value, x)))
        && (forall q ::
              (q in s
               && !(FloorMerges(s, p) && q == Floor(s, p).value)
               && !(HigherMerges(s, p) && q == Higher(s, p).value)) ==> q in r.periods)
        && (forall q :: q in r.periods && q !in s ==> q == MergeNeighbours(s, p).1)
        && |r.periods| == |s| + 1 - (if FloorMerges(s, p) then 1 else 0) - (if HigherMerges(s, p) then 1 else 0)
  {
    MergeNeighboursFacts(s, p);
    var (rest, t) := MergeNeighbours(s, p);
    if Add(s, p).Added? {
      assert t in Add(s, p).periods;
      assert Covers(p, Start(p)) && Covers(p, End(p));
    }
  }

  /** 13:00-15:00 then the touching 15:00-16:00 leave the single period
      13:00-16:00. */
  lemma AdjacentPeriodsMerge()
    ensures var a, b := PeriodFields(13, 0, 15, 0), PeriodFields(15, 0, 16, 0);
      && Add([], a) == Added([a])
      && Add([a], b) == Added([PeriodFields(13, 0, 16, 0)])
  {
    var a, b := PeriodFields(13, 0, 15, 0), PeriodFields(15, 0, 16, 0);
    assert Floor([a], b) == Some(a);
    assert Higher([a], b) == None;
    assert Combine(a, b) == Ok(PeriodFields(13, 0, 16, 0));
  }

  /** Stored periods need not be pairwise disjoint: a new period that starts
      before every stored one and reaches the second of them merges only with
      the first, and the merged period overlaps the second. */
  lemma AddMayLeaveOverlap(s: seq<Period>, p: Period)
    requires StrictlySorted(s) && 2 <= |s| <= MAX_PERIODS
    requires Start(p) < Start(s[0]) && Start(s[1]) <= End(p)
    ensures Add(s, p).Added?
    ensures exists t, q :: t in Add(s, p).periods && q in Add(s, p).periods && t != q && Intersects(t, q)
  {
    assert s[0] in s && s[1] in s;
    assert Floor(s, p) == None;
    var h := Higher(s, p).value;
    assert h == s[0] by {
      var i :| 0 <= i < |s| && s[i] == h;
      assert Start(h) <= Start(s[0]);
      assert i == 0;
    }
    assert HigherMerges(s, p);
    MergeNeighboursFacts(s, p);
    AddCoversAndKeepsOthers(s, p);
    var r := Add(s, p).periods;
    assert s[1] in r;
    var t :| t in r && Start(t) <= Start(p) && End(p) <= End(t);
    assert t != s[1] && Intersects(t, s[1]);
  }

  // ---------------------------------------------------------------------
  // deleteDayPeriod
  // ---------------------------------------------------------------------

  /** `deleteDayPeriod(p)` removes the stored period with p's start, whatever
      its end, and nothing else; without one it changes nothing. */
  lemma DeleteMatchesStartOnly(s: seq<Period>, p: Period)
    requires StrictlySorted(s)
    ensures forall q :: q in RemoveKey(s, Start(p)) <==> q in s && CompareTo(q, p) != 0
    ensures (exists q :: q in s && Start(q) == Start(p)) ==> |RemoveKey(s, Start(p))| == |s| - 1
    ensures (forall q :: q in s ==> Start(q) != Start(p)) ==> RemoveKey(s, Start(p)) == s
  {
    if exists q :: q in s && Start(q) == Start(p) {
      var q :| q in s && Start(q) == Start(p);
      KeyInMember(s, q);
    }
    if forall q :: q in s ==> Start(q) != Start(p) {
      RemovingAbsentKey(s, Start(p));
    }
  }

  lemma {:induction false} RemovingAbsentKey(s: seq<Period>, key: int)
    requires forall q :: q in s ==> Start(q) != key
    ensures RemoveKey(s, key) == s
  {
    if s != [] {
      assert s[0] in s;
      RemovingAbsentKey(s[1..], key);
      assert s == [s[0]] + s[1..];
    }
  }

  // ---------------------------------------------------------------------
  // toString
  // ---------------------------------------------------------------------

  /** The text `toString` accumulates: each period's own text and a newline,
      in stored order. */
  function Render(s: seq<Period>): string
  {
    if s == [] then "" else Render(s[..|s| - 1]) + Periods.ToString(s[|s| - 1]) + "\n"
  }

  /** One more period renders one more line after the text so far. */
  lemma RenderNext(s: seq<Period>, i: nat)
    requires i < |s|
    ensures Render(s[..i + 1]) == Render(s[..i]) + Periods.ToString(s[i]) + "\n"
  {
    assert s[..i + 1][..i] == s[..i];
  }

  /** `toString` writes one line per stored period. */
  lemma {:induction false} RenderOneLinePerPeriod(s: seq<Period>)
    ensures multiset(Render(s))['\n'] == |s|
  {
    if s != [] {
      RenderOneLinePerPeriod(s[..|s| - 1]);
      var line := Periods.ToString(s[|s| - 1]);
      assert multiset(line)['\n'] == 0;
    }
  }

  /** A `DaySchedule` object: the ordered set of periods it stores. */
  class DaySchedule {
    var periods: seq<Period>

    /** The TreeSet order and the five-period limit every reachable state
        keeps. */
    ghost predicate Valid()
      reads this
    {
      StrictlySorted(periods) && |periods| <= MAX_PERIODS
    }

    /** `DaySchedule()`: an empty schedule. */
    constructor ()
      ensures Valid() && periods == []
    {
      periods := [];
    }

    /** `addDayPeriod`: merges with the floor and then the higher neighbour,
        throws (`ok` false) when five or more periods remain, and otherwise
        inserts the merged period. A throwing call leaves the set as it was. */
    method AddDayPeriod(p: Period) returns (ok: bool)
      requires Valid()
      modifies this
      ensures Valid()
      ensures ok <==> Add(old(periods), p).Added?
      ensures periods == Add(old(periods), p).periods
      ensures !ok ==> periods == old(periods)
    {
      ghost var before := periods;
      var prev := Floor(periods, p);
      var next := Higher(periods, p);
      var toAdd := p;
      if prev.Some? && Intersects(prev.value, toAdd) {
        periods := RemoveKey(periods, Start(prev.value));
        toAdd := Combine(prev.value, toAdd).value;
      }
      if next.Some? && Intersects(next.value, toAdd) {
        periods := RemoveKey(periods, Start(next.value));
        toAdd := Combine(next.value, toAdd).value;
      }
      assert (periods, toAdd) == MergeNeighbours(before, p);
      AddThrowsOnlyWhenFull(before, p);
      if |periods| > 4 {
        ok := false;
        return;
      }
      periods := Insert(periods, toAdd);
      ok := true;
    }

    /** `deleteDayPeriod`: removes the stored period that compares equal to p,
        that is, the one with p's start. */
    method DeleteDayPeriod(p: Period)
      requires Valid()
      modifies this
      ensures Valid()
      ensures periods == RemoveKey(old(periods), Start(p))
    {
      periods := RemoveKey(periods, Start(p));
    }

    /** `getSchedule`: the stored periods in ascending start order. */
    function GetSchedule(): (r: seq<Period>)
      reads this
      requires Valid()
      ensures StrictlySorted(r) && |r| <= MAX_PERIODS
      ensures forall q :: q in r <==> q in periods
    {
      periods
    }

    /** `toString`: appends each period's line in ascending order. */
    method ToString() returns (text: string)
      ensures text == Render(periods)
    {
      text := "";
      var i := 0;
      while i < |periods|
        invariant 0 <= i <= |periods|
        invariant text == Render(periods[..i])
      {
        RenderNext(periods, i);
        text := text + Periods.ToString(periods[i]) + "\n";
        i := i + 1;
      }
      assert periods[..i] == periods;
    }
  }
}
