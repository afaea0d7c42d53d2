/** The component normaliser shared by both normalising revisions of the path
    model (Sources/FileSmith/Paths.swift:169-201; Sources/Paths.swift:169-184
    holds the same `fixDotDots` loop).  A component list is normal when it
    has no empty or "." parts and any ".." sits in a leading run. */
module Normaliser {
  import opened General

  const DotDot: string := ".."

  /** Every part before a ".." is a "..": the ".." parts form a (possibly
      empty) leading run. */
  predicate DotDotsLeading(s: seq<string>)
  {
    forall i, j :: 0 <= i < j < |s| && s[j] == DotDot ==> s[i] == DotDot
  }

  /** No empty part and no ".". */
  predicate NoEmptyOrDot(s: seq<string>)
  {
    forall i :: 0 <= i < |s| ==> s[i] != "" && s[i] != "."
  }

  lemma NoEmptyOrDotConcat(a: seq<string>, b: seq<string>)
    requires NoEmptyOrDot(a) && NoEmptyOrDot(b)
    ensures NoEmptyOrDot(a + b)
  {
    var s := a + b;
    assert forall i :: |a| <= i < |s| ==> s[i] == b[i - |a|];
  }

  /** What the documentation of every component accessor promises. */
  predicate Normal(s: seq<string>)
  {
    NoEmptyOrDot(s) && DotDotsLeading(s)
  }

  /** One step of the collapse: a ".." cancels the last concrete name on the
      stack, anything else is pushed. */
  function Push(stack: seq<string>, x: string): seq<string>
  {
    if x == DotDot && |stack| > 0 && stack[|stack| - 1] != DotDot then stack[..|stack| - 1]
    else stack + [x]
  }

  /** The stack-style reference for `fixDotDots`: a left-to-right fold of
      `Push` over the components. */
  function Collapse(s: seq<string>): seq<string>
  {
    if |s| == 0 then [] else Push(Collapse(s[..|s| - 1]), s[|s| - 1])
  }

  /** `fixDotDots`: removes every adjacent pair [<name>, ".."], in place on a
      copy of the array, with an index that steps back after each removal so
      that the new neighbours are compared. */
  method FixDotDots(components: seq<string>) returns (r: seq<string>)
    ensures r == Collapse(components)
  {
    var start := StartIndex(components);
    if start.None? {
      return components;
    }
    r := components;
    var i := start.value;
    ghost var j, c := i, components[..i];
    SplitAt(components, i);
    while i < |r|
      invariant 0 <= j <= |components|
      invariant c == Collapse(components[..j])
      invariant r == c + components[j..]
      invariant i == |c|
      decreases |r| - i
    {
      FixDotDotsStep(r, i, c, components, j);
      if i > 0 && r[i] == DotDot && r[i - 1] != DotDot {
        r := r[..i - 1] + r[i + 1..];
        i := i - 1;
      } else {
        i := i + 1;
      }
      j, c := j + 1, Push(c, components[j]);
    }
    TakeAll(components, j);
  }

  /** Where `fixDotDots` starts its index: `max(1, firstIndex(of: ".."))`,
      or nothing when there is no "..". The parts before it are already
      collapsed. */
  function StartIndex(components: seq<string>): (r: Option<nat>)
    ensures r.None? ==> Collapse(components) == components
    ensures r.Some? ==> r.value <= |components| && Collapse(components[..r.value]) == components[..r.value]
  {
    match FirstIndex(components, DotDot)
    case None => CollapseWithoutDotDots(components); None
    case Some(first) =>
      var i := if first < 1 then 1 else first;
      PrefixBeforeDotDotIsCollapsed(components, first, i);
      Some(i)
  }

  /** The parts before the first "..", or the single leading "..", are
      already collapsed. */
  lemma PrefixBeforeDotDotIsCollapsed(s: seq<string>, first: nat, i: nat)
    requires first < |s| && s[first] == DotDot && DotDot !in s[..first]
    requires i == if first < 1 then 1 else first
    ensures Collapse(s[..i]) == s[..i]
  {
    var p := s[..i];
    if first >= 1 {
      assert p == s[..first];
      CollapseWithoutDotDots(p);
    } else {
      assert p == [DotDot];
      CollapseFixesLeading(p);
    }
  }

  /** The rest of the fold: pushes the parts of `rest` onto `stack` in order. */
  function Finish(stack: seq<string>, rest: seq<string>): seq<string>
    decreases |rest|
  {
    if |rest| == 0 then stack else Finish(Push(stack, rest[0]), rest[1..])
  }

  /** Finishing the fold from a collapsed prefix gives the whole collapse. */
  lemma {:induction false} FinishCollapse(p: seq<string>, rest: seq<string>)
    ensures Finish(Collapse(p), rest) == Collapse(p + rest)
    decreases |rest|
  {
    if |rest| == 0 {
      assert p + rest == p;
    } else {
      var p' := p + [rest[0]];
      assert p'[..|p'| - 1] == p;
      FinishCollapse(p', rest[1..]);
      assert p' + rest[1..] == p + rest;
    }
  }

  /** The collapse is the forward fold from an empty stack. */
  lemma CollapseIsFold(s: seq<string>)
    ensures Collapse(s) == Finish([], s)
  {
    FinishCollapse([], s);
    assert [] + s == s;
  }

  /** One turn of the `fixDotDots` loop with the index i at part j, in the
      state `r == c + comps[j..]` where c is the collapse of the first j
      parts: both branches leave the collapse of the first j + 1 parts
      followed by the rest. */
  lemma FixDotDotsStep(r: seq<string>, i: nat, c: seq<string>, comps: seq<string>, j: nat)
    requires j < |comps| && r == c + comps[j..] && i == |c| && c == Collapse(comps[..j])
    ensures i < |r| && Push(c, comps[j]) == Collapse(comps[..j + 1])
    ensures i > 0 && r[i] == DotDot && r[i - 1] != DotDot ==>
      r[..i - 1] + r[i + 1..] == Push(c, comps[j]) + comps[j + 1..] && i - 1 == |Push(c, comps[j])|
    ensures !(i > 0 && r[i] == DotDot && r[i - 1] != DotDot) ==>
      r == Push(c, comps[j]) + comps[j + 1..] && i + 1 == |Push(c, comps[j])|
  {
    var x, rest := comps[j], comps[j + 1..];
    assert comps[j..] == [x] + rest;
    assert r == c + [x] + rest;
    if i > 0 && r[i] == DotDot && r[i - 1] != DotDot {
      assert r[..i - 1] == c[..|c| - 1];
      assert r[i + 1..] == rest;
    }
    CollapseSnoc(comps, j);
  }

  /** The collapse of one more part is one more `Push`. */
  lemma CollapseSnoc(s: seq<string>, j: nat)
    requires j < |s|
    ensures Collapse(s[..j + 1]) == Push(Collapse(s[..j]), s[j])
  {
    assert s[..j + 1][..j] == s[..j];
  }

  lemma CollapseLast(s: seq<string>, x: string)
    ensures Collapse(s + [x]) == Push(Collapse(s), x)
  {
    assert (s + [x])[..|s|] == s;
  }

  /** Collapsing never creates a part: every result part is an input part. */
  lemma {:induction false} CollapseParts(s: seq<string>)
    ensures forall x :: x in Collapse(s) ==> x in s
  {
    if |s| > 0 {
      CollapseParts(s[..|s| - 1]);
      assert s == s[..|s| - 1] + [s[|s| - 1]];
    }
  }

  /** The result of the collapse keeps ".." only in a leading run. */
  lemma {:induction false} CollapseLeavesDotDotsLeading(s: seq<string>)
    ensures DotDotsLeading(Collapse(s))
  {
    if |s| > 0 {
      CollapseLeavesDotDotsLeading(s[..|s| - 1]);
      var c := Collapse(s[..|s| - 1]);
      var x := s[|s| - 1];
      if !(x == DotDot && |c| > 0 && c[|c| - 1] != DotDot) && x == DotDot {
        var r := c + [x];
        forall i, j | 0 <= i < j < |r| && r[j] == DotDot ensures r[i] == DotDot {
          if j < |c| {
            assert r[i] == c[i] && r[j] == c[j];
          } else {
            assert c[|c| - 1] == DotDot;
            assert r[i] == c[i];
          }
        }
      }
    }
  }

  /** A list that is already in collapsed form is left unchanged. */
  lemma {:induction false} CollapseFixesLeading(s: seq<string>)
    requires DotDotsLeading(s)
    ensures Collapse(s) == s
  {
    if |s| > 0 {
      var init := s[..|s| - 1];
      var x := s[|s| - 1];
      forall i, j | 0 <= i < j < |init| && init[j] == DotDot ensures init[i] == DotDot {
        assert s[i] == init[i] && s[j] == init[j];
      }
      CollapseFixesLeading(init);
      assert Collapse(s) == Push(init, x);
      if x == DotDot && |init| > 0 {
        assert s[|s| - 2] == DotDot;
      }
      assert Push(init, x) == init + [x];
      assert s == init + [x];
    }
  }

  /** Without any "..", nothing is removed. */
  lemma CollapseWithoutDotDots(s: seq<string>)
    requires DotDot !in s
    ensures Collapse(s) == s
  {
    assert DotDotsLeading(s);
    CollapseFixesLeading(s);
  }

  /** Applying the collapse twice is the same as applying it once. */
  lemma CollapseIdempotent(s: seq<string>)
    ensures Collapse(Collapse(s)) == Collapse(s)
  {
    CollapseLeavesDotDotsLeading(s);
    CollapseFixesLeading(Collapse(s));
  }

  /** The collapse of a normal-part list is normal. */
  lemma CollapseNormal(s: seq<string>)
    requires NoEmptyOrDot(s)
    ensures Normal(Collapse(s))
  {
    CollapseParts(s);
    CollapseLeavesDotDotsLeading(s);
    var c := Collapse(s);
    forall i | 0 <= i < |c| ensures c[i] != "" && c[i] != "." {
      assert c[i] in c;
    }
  }

  /** The collapse is a left fold, so a prefix may be collapsed first. */
  lemma {:induction false} CollapseAppend(s: seq<string>, t: seq<string>)
    ensures Collapse(s + t) == Collapse(Collapse(s) + t)
  {
    if |t| == 0 {
      assert s + t == s;
      assert Collapse(s) + t == Collapse(s);
      CollapseIdempotent(s);
    } else {
      var t' := t[..|t| - 1];
      CollapseAppend(s, t');
      assert (s + t)[..|s + t| - 1] == s + t';
      assert (Collapse(s) + t)[..|Collapse(s) + t| - 1] == Collapse(s) + t';
    }
  }

  /** Collapsing a tail first changes nothing: whatever follows a prefix may
      be collapsed on its own before the whole is collapsed. */
  lemma {:induction false} CollapseAbsorbs(a: seq<string>, b: seq<string>)
    ensures Collapse(a + b) == Collapse(a + Collapse(b))
  {
    if |b| == 0 {
    } else {
      var b', x := b[..|b| - 1], b[|b| - 1];
      var c := Collapse(b');
      CollapseAbsorbs(a, b');
      assert b == b' + [x];
      AppendAssociative(a, b', [x]);
      CollapseLast(a + b', x);
      CollapseLast(b', x);
      if x == DotDot && |c| > 0 && c[|c| - 1] != DotDot {
        var c', n := c[..|c| - 1], c[|c| - 1];
        assert c == c' + [n];
        AppendAssociative(a, c', [n]);
        CollapseLast(a + c', n);
      } else {
        AppendAssociative(a, c, [x]);
        CollapseLast(a + c, x);
      }
    }
  }

  /** Names without ".." appended after a collapsed list are kept as they are. */
  lemma {:induction false} CollapseAppendNames(s: seq<string>, names: seq<string>)
    requires DotDot !in names
    ensures Collapse(s + names) == Collapse(s) + names
  {
    if |names| == 0 {
      assert s + names == s;
    } else {
      var n' := names[..|names| - 1];
      var x := names[|names| - 1];
      var t := s + names;
      assert t[..|t| - 1] == s + n';
      assert t[|t| - 1] == x;
      CollapseAppendNames(s, n');
      assert x in names;
      assert Collapse(t) == Push(Collapse(s) + n', x);
      assert Collapse(s) + names == (Collapse(s) + n') + [x];
    }
  }

  /** k copies of "..". */
  function DotDots(k: nat): (r: seq<string>)
    ensures |r| == k && forall i :: 0 <= i < k ==> r[i] == DotDot
  {
    if k == 0 then [] else DotDots(k - 1) + [DotDot]
  }

  /** k ".." after k or more concrete names cancel the last k of them. */
  lemma {:induction false} CollapseClimbs(u: seq<string>, k: nat)
    requires DotDot !in u && k <= |u|
    ensures Collapse(u + DotDots(k)) == u[..|u| - k]
  {
    if k == 0 {
      assert u + DotDots(0) == u;
      CollapseWithoutDotDots(u);
    } else {
      CollapseClimbs(u, k - 1);
      ClimbOneMore(u, k);
      PopName(u, k);
    }
  }

  /** u followed by k ".." is u followed by k - 1 ".." and one more. */
  lemma ClimbOneMore(u: seq<string>, k: nat)
    requires k > 0
    ensures var s := u + DotDots(k); |s| > 0 && s[..|s| - 1] == u + DotDots(k - 1) && s[|s| - 1] == DotDot
  {
    var s := u + DotDots(k);
    assert s[..|s| - 1] == u + DotDots(k - 1);
  }

  /** Cancelling the last concrete name of the first |u| - k + 1 parts
      leaves the first |u| - k. */
  lemma PopName(u: seq<string>, k: nat)
    requires DotDot !in u && 0 < k <= |u|
    ensures Push(u[..|u| - (k - 1)], DotDot) == u[..|u| - k]
  {
    var v := u[..|u| - (k - 1)];
    assert v[|v| - 1] == u[|u| - k];
    assert u[|u| - k] in u;
    assert v[..|v| - 1] == u[..|u| - k];
  }

  // ----- fixDotDots only ever removes adjacent [<name>, ".."] pairs -----

  /** Position i starts a removable pair: a concrete name followed by "..". */
  predicate IsPairAt(s: seq<string>, i: nat)
  {
    i + 1 < |s| && s[i] != DotDot && s[i + 1] == DotDot
  }

  /** Removes the pairs starting at the given positions, one after another;
      None when a position does not start a removable pair. */
  function RemovePairs(s: seq<string>, steps: seq<nat>): Option<seq<string>>
    decreases |steps|
  {
    if |steps| == 0 then Some(s)
    else if IsPairAt(s, steps[0]) then RemovePairs(s[..steps[0]] + s[steps[0] + 2..], steps[1..])
    else None
  }

  /** The pair positions the collapse removes, in the order it removes them. */
  function CollapseSteps(s: seq<string>): seq<nat>
  {
    if |s| == 0 then []
    else
      var c := Collapse(s[..|s| - 1]);
      if s[|s| - 1] == DotDot && |c| > 0 && c[|c| - 1] != DotDot
      then CollapseSteps(s[..|s| - 1]) + [|c| - 1]
      else CollapseSteps(s[..|s| - 1])
  }

  lemma {:induction false} RemovePairsSnoc(s: seq<string>, steps: seq<nat>, x: string)
    requires RemovePairs(s, steps).Some?
    ensures RemovePairs(s + [x], steps) == Some(RemovePairs(s, steps).value + [x])
    decreases |steps|
  {
    if |steps| > 0 {
      var i := steps[0];
      var s' := s[..i] + s[i + 2..];
      assert (s + [x])[..i] + (s + [x])[i + 2..] == s' + [x];
      RemovePairsSnoc(s', steps[1..], x);
    }
  }

  lemma {:induction false} RemovePairsThen(s: seq<string>, a: seq<nat>, b: seq<nat>)
    requires RemovePairs(s, a).Some?
    ensures RemovePairs(s, a + b) == RemovePairs(RemovePairs(s, a).value, b)
    decreases |a|
  {
    if |a| == 0 {
      assert a + b == b;
    } else {
      var s' := s[..a[0]] + s[a[0] + 2..];
      assert IsPairAt(s, a[0]);
      assert RemovePairs(s, a) == RemovePairs(s', a[1..]);
      assert (a + b)[0] == a[0];
      assert (a + b)[1..] == a[1..] + b;
      assert RemovePairs(s, a + b) == RemovePairs(s', a[1..] + b);
      RemovePairsThen(s', a[1..], b);
    }
  }

  /** A collapsed list has no removable pair left. */
  lemma LeadingHasNoPair(s: seq<string>)
    requires DotDotsLeading(s)
    ensures forall i: nat :: !IsPairAt(s, i)
  {
    forall i: nat | i + 1 < |s| && s[i + 1] == DotDot ensures s[i] == DotDot {
      assert 0 < i + 1 < |s|;
    }
  }

  /** fixDotDots only ever removes adjacent [<name>, ".."] pairs: its result
      is what removing the pairs `CollapseSteps(s)` one by one leaves, and no
      removable pair is left over. */
  lemma CollapseRemovesOnlyPairs(s: seq<string>)
    ensures RemovePairs(s, CollapseSteps(s)) == Some(Collapse(s))
    ensures forall i: nat :: !IsPairAt(Collapse(s), i)
  {
    CollapseLeavesDotDotsLeading(s);
    LeadingHasNoPair(Collapse(s));
    CollapseTrace(s);
  }

  lemma {:induction false} CollapseTrace(s: seq<string>)
    ensures RemovePairs(s, CollapseSteps(s)) == Some(Collapse(s))
  {
    if |s| > 0 {
      var init := s[..|s| - 1];
      var x := s[|s| - 1];
      var c := Collapse(init);
      var steps := CollapseSteps(init);
      CollapseTrace(init);
      RemovePairsSnoc(init, steps, x);
      SplitLast(s);
      CollapseLast(init, x);
      if x == DotDot && |c| > 0 && c[|c| - 1] != DotDot {
        assert CollapseSteps(s) == steps + [|c| - 1];
        RemovePairsThen(s, steps, [|c| - 1]);
        RemoveLastPair(c);
      } else {
        assert CollapseSteps(s) == steps;
      }
    }
  }

  /** A name followed by ".." at the end is one removable pair. */
  lemma RemoveLastPair(c: seq<string>)
    requires |c| > 0 && c[|c| - 1] != DotDot
    ensures RemovePairs(c + [DotDot], [|c| - 1]) == Some(c[..|c| - 1])
  {
    var t := c + [DotDot];
    assert IsPairAt(t, |c| - 1);
    assert t[..|c| - 1] + t[|c| + 1..] == c[..|c| - 1];
    assert [|c| - 1][1..] == [];
  }

  // ----- the examples of Tests/FileSmithTests/PathTests.swift:96-103 -----

  lemma DotDotExamplesDropOne()
    ensures Collapse(["dir1", "dir2", ".."]) == ["dir1"]
    ensures Collapse(["..", "dir1", "dir2", ".."]) == ["..", "dir1"]
  {
    CollapseIsFold(["dir1", "dir2", ".."]);
    CollapseIsFold(["..", "dir1", "dir2", ".."]);
  }

  lemma DotDotExamplesDropTwo()
    ensures Collapse(["dir", "dir", "..", "..", "dir2"]) == ["dir2"]
    ensures Collapse(["dir", "..", "dir", "..", "..", "dir2"]) == ["..", "dir2"]
  {
    CollapseIsFold(["dir", "dir", "..", "..", "dir2"]);
    CollapseIsFold(["dir", "..", "dir", "..", "..", "dir2"]);
  }

  lemma DotDotExamplesClimbOut()
    ensures Collapse(["dir", "dir", "..", "..", "..", "dir2"]) == ["..", "dir2"]
    ensures Collapse(["..", "dir1", "..", "dir2", ".."]) == [".."]
  {
    CollapseIsFold(["dir", "dir", "..", "..", "..", "dir2"]);
    CollapseIsFold(["..", "dir1", "..", "dir2", ".."]);
  }
}
