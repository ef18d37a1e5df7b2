/**
 The choice of the time series that a metrics query reads: the raw series, or one of the
 downsampled ones that are kept longer.
 */
module Series {
  import opened Wrappers

  /** A downsampling rule: the extension of the series' key and how long its values are kept. */
  datatype Rule = Rule(extension: string, retention: int)

  datatype Choice = Choice(extension: Option<string>, retention: int)

  const SLACK := 5000

  // ---- sorting the rules ----

  function Insert(rules: seq<Rule>, rule: Rule): seq<Rule> {
    if rules == [] || rule.retention < rules[0].retention then [rule] + rules else [rules[0]] + Insert(rules[1..], rule)
  }

  /** `sorted(downsampling, key=retention)`, which is stable. */
  function Sorted(rules: seq<Rule>): seq<Rule> {
    if rules == [] then [] else Insert(Sorted(rules[..|rules| - 1]), rules[|rules| - 1])
  }

  predicate Ascending(rules: seq<Rule>) {
    forall i, j | 0 <= i < j < |rules| :: rules[i].retention <= rules[j].retention
  }

  lemma {:induction false} InsertMembers(rules: seq<Rule>, rule: Rule)
    ensures multiset(Insert(rules, rule)) == multiset(rules) + multiset{rule}
  {
    if rules != [] && rule.retention >= rules[0].retention {
      InsertMembers(rules[1..], rule);
      assert rules == [rules[0]] + rules[1..];
    }
  }

  predicate AllFrom(rules: seq<Rule>, least: int) {
    forall i | 0 <= i < |rules| :: least <= rules[i].retention
  }

  lemma {:induction false} InsertAscending(rules: seq<Rule>, rule: Rule, least: int)
    requires Ascending(rules) && AllFrom(rules, least) && least <= rule.retention
    ensures Ascending(Insert(rules, rule)) && AllFrom(Insert(rules, rule), least)
  {
    if rules != [] && rule.retention >= rules[0].retention {
      assert AllFrom(rules[1..], rules[0].retention);
      InsertAscending(rules[1..], rule, rules[0].retention);
    }
  }

  function LeastOf(rules: seq<Rule>, other: int): int {
    if rules == [] || other <= rules[0].retention then other else rules[0].retention
  }

  lemma EmptyAscending()
    ensures Ascending([])
  {
  }

  lemma {:induction false} SortedProperties(rules: seq<Rule>)
    ensures Ascending(Sorted(rules)) && multiset(Sorted(rules)) == multiset(rules)
  {
    hide Ascending, AllFrom, Insert, LeastOf;
    if rules == [] {
      EmptyAscending();
    } else {
      var init, last := rules[..|rules| - 1], rules[|rules| - 1];
      SortedProperties(init);
      InsertMembers(Sorted(init), last);
      LeastIsLeast(Sorted(init), last.retention);
      InsertAscending(Sorted(init), last, LeastOf(Sorted(init), last.retention));
      assert rules == init + [last];
      assert Sorted(rules) == Insert(Sorted(init), last);
    }
  }

  lemma LeastIsLeast(rules: seq<Rule>, other: int)
    requires Ascending(rules)
    ensures AllFrom(rules, LeastOf(rules, other)) && LeastOf(rules, other) <= other
  {
  }

  // ---- the choice ----

  /** The series reaches back to the start of the query, give or take five seconds. */
  predicate Reaches(start: int, now: int, retention: int) {
    start - (now - retention) + SLACK >= 0
  }

  /** The first rule that is kept as long as the requested range. */
  function ForRange(rules: seq<Rule>, range: int, choice: Choice): Choice {
    if rules == [] then choice
    else if range <= rules[0].retention then Choice(Some(rules[0].extension), rules[0].retention)
    else ForRange(rules[1..], range, choice)
  }

  /** The search loop: it stops when the current choice reaches back, and otherwise takes the next rule. */
  function Search(rules: seq<Rule>, start: int, now: int, choice: Choice): Choice {
    if rules == [] || Reaches(start, now, choice.retention) then choice
    else Search(rules[1..], start, now, Choice(Some(rules[0].extension), rules[0].retention))
  }

  function Select(retention: int, rules: seq<Rule>, start: int, end: int, now: int): Choice {
    var raw := Choice(None, retention);
    var first := if end - start > retention && rules != [] then ForRange(Sorted(rules), end - start, raw) else raw;
    if !Reaches(start, now, first.retention) && rules != [] then Search(Sorted(rules), start, now, first) else first
  }

  method SelectSeries(retention: int, rules: seq<Rule>, start: int, end: int, now: int)
    returns (extension: Option<string>, kept: int)
    ensures Choice(extension, kept) == Select(retention, rules, start, end, now)
  {
    extension, kept := None, retention;
    var sorted := Sorted(rules);
    if end - start > kept && rules != [] {
      ghost var raw := Choice(None, retention);
      var k := 0;
      while k < |sorted|
        invariant 0 <= k <= |sorted| && extension == None && kept == retention
        invariant ForRange(sorted[k..], end - start, raw) == ForRange(sorted, end - start, raw)
      {
        assert sorted[k..][0] == sorted[k] && sorted[k..][1..] == sorted[k + 1..];
        if end - start <= sorted[k].retention {
          extension, kept := Some(sorted[k].extension), sorted[k].retention;
          break;
        }
        k := k + 1;
      }
    }
    if !Reaches(start, now, kept) && rules != [] {
      ghost var first := Choice(extension, kept);
      var k := 0;
      while k < |sorted|
        invariant 0 <= k <= |sorted|
        invariant Search(sorted[k..], start, now, Choice(extension, kept)) == Search(sorted, start, now, first)
      {
        assert sorted[k..][0] == sorted[k] && sorted[k..][1..] == sorted[k + 1..];
        if Reaches(start, now, kept) {
          break;
        }
        extension, kept := Some(sorted[k].extension), sorted[k].retention;
        k := k + 1;
      }
    }
  }

  // ---- what the choice is ----

  predicate IsRule(choice: Choice, rules: seq<Rule>) {
    exists i | 0 <= i < |rules| :: choice == Choice(Some(rules[i].extension), rules[i].retention)
  }

  /** The rule that is kept longest. */
  predicate Coarsest(choice: Choice, rules: seq<Rule>) {
    IsRule(choice, rules) && forall i | 0 <= i < |rules| :: rules[i].retention <= choice.retention
  }

  /** No rule that reaches back is kept for a shorter time. */
  predicate Shortest(choice: Choice, rules: seq<Rule>, start: int, now: int) {
    forall i | 0 <= i < |rules| && now - start <= rules[i].retention + SLACK :: choice.retention <= rules[i].retention
  }

  lemma {:induction false} SearchFinds(rules: seq<Rule>, start: int, now: int, choice: Choice)
    requires Ascending(rules) && rules != [] && !Reaches(start, now, choice.retention)
    ensures var found := Search(rules, start, now, choice);
            && IsRule(found, rules) && Shortest(found, rules, start, now)
            && (Reaches(start, now, found.retention) || Coarsest(found, rules))
  {
    var first := Choice(Some(rules[0].extension), rules[0].retention);
    var found := Search(rules, start, now, choice);
    if Reaches(start, now, first.retention) || |rules| == 1 {
      assert found == Search(rules[1..], start, now, first) == first;
      assert IsRule(found, rules);
    } else {
      SearchFinds(rules[1..], start, now, first);
      var i :| 0 <= i < |rules[1..]| && found == Choice(Some(rules[1..][i].extension), rules[1..][i].retention);
      assert found == Choice(Some(rules[i + 1].extension), rules[i + 1].retention);
      forall j | 0 <= j < |rules| && Reaches(start, now, rules[j].retention) ensures found.retention <= rules[j].retention {
        assert j > 0 && rules[j] == rules[1..][j - 1];
      }
      if !Reaches(start, now, found.retention) {
        forall j | 0 <= j < |rules| ensures rules[j].retention <= found.retention {
          if j > 0 { assert rules[j] == rules[1..][j - 1]; } else { assert rules[0].retention <= rules[i + 1].retention; }
        }
      }
    }
  }

  /** The rules in another order are the same rules. */
  lemma SameRules(a: seq<Rule>, b: seq<Rule>, choice: Choice, start: int, now: int)
    requires multiset(a) == multiset(b)
    ensures IsRule(choice, a) ==> IsRule(choice, b)
    ensures Coarsest(choice, a) ==> Coarsest(choice, b)
    ensures Shortest(choice, a, start, now) ==> Shortest(choice, b, start, now)
  {
    forall i | 0 <= i < |b| ensures exists j :: 0 <= j < |a| && a[j] == b[i] {
      assert b[i] in multiset(b);
      assert b[i] in a;
    }
    if IsRule(choice, a) {
      var i :| 0 <= i < |a| && choice == Choice(Some(a[i].extension), a[i].retention);
      assert a[i] in multiset(a);
      var j :| 0 <= j < |b| && b[j] == a[i];
    }
  }

  /**
   The selected series reaches back to the start of the query, or it is the coarsest one; without
   rules it is the raw series. If the search was needed, no rule that is kept for a shorter time
   reaches back that far.
   */
  lemma SelectedReachesBack(retention: int, rules: seq<Rule>, start: int, end: int, now: int)
    ensures var choice := Select(retention, rules, start, end, now);
            && (rules == [] ==> choice == Choice(None, retention))
            && (rules != [] ==> now - start <= choice.retention + SLACK || Coarsest(choice, rules))
  {
    hide Coarsest, Shortest, IsRule;
    if rules != [] {
      SortedProperties(rules);
      var raw := Choice(None, retention);
      var first := if end - start > retention then ForRange(Sorted(rules), end - start, raw) else raw;
      SomeRule(rules);
      if !Reaches(start, now, first.retention) {
        SearchFinds(Sorted(rules), start, now, first);
        SameRules(Sorted(rules), rules, Search(Sorted(rules), start, now, first), start, now);
      }
    }
  }

  lemma SomeRule(rules: seq<Rule>)
    requires rules != []
    ensures Sorted(rules) != []
  {
    SortedProperties(rules);
    assert |multiset(rules)| == |rules| && |multiset(Sorted(rules))| == |Sorted(rules)|;
  }

  /** The choice for the length of the requested range: the rule with the shortest retention that covers it, or else the raw series. */
  ghost predicate IsFirst(first: Choice, retention: int, rules: seq<Rule>, range: int) {
    if range > retention && exists i :: 0 <= i < |rules| && range <= rules[i].retention then
      && IsRule(first, rules) && range <= first.retention
      && forall i | 0 <= i < |rules| && range <= rules[i].retention :: first.retention <= rules[i].retention
    else first == Choice(None, retention)
  }

  lemma {:induction false} ForRangeIsFirst(rules: seq<Rule>, range: int, retention: int)
    requires Ascending(rules) && range > retention
    ensures IsFirst(ForRange(rules, range, Choice(None, retention)), retention, rules, range)
  {
    var raw := Choice(None, retention);
    if rules != [] {
      if range <= rules[0].retention {
        assert ForRange(rules, range, raw) == Choice(Some(rules[0].extension), rules[0].retention);
        assert forall i | 0 < i < |rules| :: rules[0].retention <= rules[i].retention;
      } else {
        var rest := rules[1..];
        ForRangeIsFirst(rest, range, retention);
        forall i | 0 < i < |rules| ensures rules[i] == rest[i - 1] { }
        if exists i :: 0 <= i < |rest| && range <= rest[i].retention {
          var i :| 0 <= i < |rest| && range <= rest[i].retention;
          assert range <= rules[i + 1].retention;
          FirstOfMore(ForRange(rest, range, raw), rules);
        }
      }
    }
  }

  lemma FirstOfMore(choice: Choice, rules: seq<Rule>)
    requires rules != [] && IsRule(choice, rules[1..])
    ensures IsRule(choice, rules)
  {
    var i :| 0 <= i < |rules[1..]| && choice == Choice(Some(rules[1..][i].extension), rules[1..][i].retention);
    assert rules[i + 1] == rules[1..][i];
  }

  lemma SameFirst(a: seq<Rule>, b: seq<Rule>, first: Choice, retention: int, range: int)
    requires multiset(a) == multiset(b) && IsFirst(first, retention, a, range)
    ensures IsFirst(first, retention, b, range)
  {
    hide IsRule;
    SameRules(a, b, first, 0, 0);
    forall i | 0 <= i < |b| ensures b[i] in a { assert b[i] in multiset(b); }
    forall i | 0 <= i < |a| ensures a[i] in b { assert a[i] in multiset(a); }
  }

  /**
   The choice, exactly: the series for the length of the range, if it reaches back to the start or
   there are no rules; otherwise, of the rules that reach back, one that is kept for the shortest
   time, and if none does, the coarsest one.
   */
  lemma SelectedExactly(retention: int, rules: seq<Rule>, start: int, end: int, now: int)
    ensures exists first :: IsFirst(first, retention, rules, end - start)
              && var choice := Select(retention, rules, start, end, now);
                 if now - start <= first.retention + SLACK || rules == [] then choice == first
                 else
                   && IsRule(choice, rules) && Shortest(choice, rules, start, now)
                   && (now - start <= choice.retention + SLACK || Coarsest(choice, rules))
  {
    hide Coarsest, Shortest, IsRule, Ascending, ForRange, Search, Sorted;
    SortedProperties(rules);
    var raw, sorted := Choice(None, retention), Sorted(rules);
    var first := if end - start > retention && rules != [] then ForRange(sorted, end - start, raw) else raw;
    if end - start > retention && rules != [] {
      ForRangeIsFirst(sorted, end - start, retention);
      SameFirst(sorted, rules, first, retention, end - start);
    }
    assert IsFirst(first, retention, rules, end - start);
    hide IsFirst;
    if !Reaches(start, now, first.retention) && rules != [] {
      SomeRule(rules);
      SearchFinds(sorted, start, now, first);
      SameRules(sorted, rules, Search(sorted, start, now, first), start, now);
    }
  }

  // ---- aligning time stamps ----

  const STEP := 5000

  /** `round(n / 5000)`, which rounds halves to the even neighbour. */
  function RoundedSteps(timestamp: int): int {
    var q, r := timestamp / STEP, timestamp % STEP;
    if 2 * r < STEP || (2 * r == STEP && q % 2 == 0) then q else q + 1
  }

  function Aligned(timestamp: int): int {
    STEP * RoundedSteps(timestamp)
  }

  /** Aligning moves a time stamp to the nearest multiple of five seconds, of two the even one, keeps the order, and does nothing twice. */
  lemma AlignedIsNearest(s: int, t: int)
    ensures Aligned(t) % STEP == 0 && -STEP <= 2 * (Aligned(t) - t) <= STEP
    ensures 2 * (Aligned(t) - t) == STEP || 2 * (t - Aligned(t)) == STEP ==> Aligned(t) % (2 * STEP) == 0
    ensures Aligned(Aligned(t)) == Aligned(t)
    ensures s <= t ==> Aligned(s) <= Aligned(t)
  {
    var q := RoundedSteps(t);
    assert (STEP * q) / STEP == q && (STEP * q) % STEP == 0;
    assert s == STEP * (s / STEP) + s % STEP && t == STEP * (t / STEP) + t % STEP;
  }
}
