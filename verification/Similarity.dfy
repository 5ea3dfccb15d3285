/** similarity: two-row Levenshtein distance, against the least cost of an edit script. */
module Similarity {

  // ----- edit scripts

  datatype Edit = Keep | Substitute(c: char) | Insert(c: char) | Delete

  /** What a script makes of `s`; it must consume `s` exactly. The last edit concerns the last characters. */
  function Apply(script: seq<Edit>, s: string): (r: (bool, string))
    decreases |script|
  {
    if script == [] then (s == [], [])
    else
      var rest, e := script[..|script| - 1], script[|script| - 1];
      if e.Insert? then
        var r := Apply(rest, s);
        (r.0, r.1 + [e.c])
      else if s == [] then (false, [])
      else
        var r := Apply(rest, s[..|s| - 1]);
        match e
        case Delete => r
        case Keep => (r.0, r.1 + [s[|s| - 1]])
        case Substitute(c) => (r.0, r.1 + [c])
        case Insert(c) => r
  }

  predicate Turns(script: seq<Edit>, s: string, t: string) {
    Apply(script, s) == (true, t)
  }

  /** Everything but Keep costs one. */
  function Cost(script: seq<Edit>): nat {
    if script == [] then 0
    else Cost(script[..|script| - 1]) + (if script[|script| - 1].Keep? then 0 else 1)
  }

  // ----- the recurrence

  function Min(a: int, b: int): int {
    if b < a then b else a
  }

  function Distance(s: string, t: string): nat
    decreases |s| + |t|
  {
    if s == [] then |t|
    else if t == [] then |s|
    else
      var s', t' := s[..|s| - 1], t[..|t| - 1];
      Min(Min(1 + Distance(s, t'), 1 + Distance(s', t)),
          Distance(s', t') + (if s[|s| - 1] == t[|t| - 1] then 0 else 1))
  }

  lemma ScriptAppend(script: seq<Edit>, e: Edit)
    ensures (script + [e])[..|script| + 1 - 1] == script
    ensures Cost(script + [e]) == Cost(script) + (if e.Keep? then 0 else 1)
  {
    assert (script + [e])[..|script|] == script;
  }

  lemma TurnsInsert(script: seq<Edit>, s: string, t: string, c: char)
    requires Turns(script, s, t)
    ensures Turns(script + [Insert(c)], s, t + [c])
  {
    ScriptAppend(script, Insert(c));
  }

  lemma TurnsConsume(script: seq<Edit>, e: Edit, s: string, x: char, t: string)
    requires Turns(script, s, t) && !e.Insert?
    ensures Turns(script + [e], s + [x], match e case Delete => t case Keep => t + [x] case Substitute(c) => t + [c]
            case Insert(_) => t)
  {
    ScriptAppend(script, e);
    assert (s + [x])[..|s|] == s;
  }

  lemma Parts(s: string)
    requires s != []
    ensures s[..|s| - 1] + [s[|s| - 1]] == s
  {
  }

  /** Some script achieves the recurrence's value. */
  lemma {:induction false} Achieved(s: string, t: string) returns (script: seq<Edit>)
    ensures Turns(script, s, t) && Cost(script) == Distance(s, t)
    decreases |s| + |t|
  {
    if s == [] && t == [] {
      script := [];
    } else if s == [] {
      script := Achieved(s, t[..|t| - 1]);
      script := ExtendInsert(script, s, t);
    } else if t == [] {
      script := Achieved(s[..|s| - 1], t);
      script := ExtendDelete(script, s, t);
    } else {
      var s', t' := s[..|s| - 1], t[..|t| - 1];
      var d := Distance(s, t);
      if d == 1 + Distance(s, t') {
        script := Achieved(s, t');
        script := ExtendInsert(script, s, t);
      } else if d == 1 + Distance(s', t) {
        script := Achieved(s', t);
        script := ExtendDelete(script, s, t);
      } else {
        script := Achieved(s', t');
        var e := if s[|s| - 1] == t[|t| - 1] then Keep else Substitute(t[|t| - 1]);
        Parts(s);
        Parts(t);
        TurnsConsume(script, e, s', s[|s| - 1], t');
        ScriptAppend(script, e);
        script := script + [e];
      }
    }
  }

  lemma ExtendInsert(script: seq<Edit>, s: string, t: string) returns (r: seq<Edit>)
    requires t != [] && Turns(script, s, t[..|t| - 1])
    ensures Turns(r, s, t) && Cost(r) == Cost(script) + 1
  {
    Parts(t);
    TurnsInsert(script, s, t[..|t| - 1], t[|t| - 1]);
    ScriptAppend(script, Insert(t[|t| - 1]));
    r := script + [Insert(t[|t| - 1])];
  }

  lemma ExtendDelete(script: seq<Edit>, s: string, t: string) returns (r: seq<Edit>)
    requires s != [] && Turns(script, s[..|s| - 1], t)
    ensures Turns(r, s, t) && Cost(r) == Cost(script) + 1
  {
    Parts(s);
    TurnsConsume(script, Delete, s[..|s| - 1], s[|s| - 1], t);
    ScriptAppend(script, Delete);
    r := script + [Delete];
  }

  /** Lengthening either side by one character moves the distance by at most one. */
  lemma {:induction false} DistanceStep(s: string, t: string)
    ensures t != [] ==> Distance(s, t) <= 1 + Distance(s, t[..|t| - 1])
    ensures s != [] ==> Distance(s, t) <= 1 + Distance(s[..|s| - 1], t)
    ensures s != [] && t != [] ==>
              Distance(s, t) <= Distance(s[..|s| - 1], t[..|t| - 1]) + (if s[|s| - 1] == t[|t| - 1] then 0 else 1)
  {
    if s == [] && t != [] {
    } else if t == [] && s != [] {
    }
  }

  /** No script is cheaper. */
  lemma {:induction false} Least(script: seq<Edit>, s: string, t: string)
    requires Turns(script, s, t)
    ensures Distance(s, t) <= Cost(script)
    decreases |script|
  {
    hide Distance;
    if script == [] {
      EmptyDistance();
    } else {
      var rest, e := script[..|script| - 1], script[|script| - 1];
      DistanceStep(s, t);
      if e.Insert? {
        var t' := Apply(rest, s).1;
        assert t == t' + [e.c] && t[..|t| - 1] == t';
        Least(rest, s, t');
      } else {
        var s' := s[..|s| - 1];
        var t' := Apply(rest, s').1;
        Least(rest, s', t');
        if !e.Delete? {
          assert t[..|t| - 1] == t';
        }
      }
    }
  }

  lemma EmptyDistance()
    ensures Distance([], []) == 0
  {
  }

  /** The recurrence is the least cost of any insert/delete/substitute script. */
  lemma DistanceIsLeastCost(s: string, t: string)
    ensures exists script :: Turns(script, s, t) && Cost(script) == Distance(s, t)
    ensures forall script :: Turns(script, s, t) ==> Distance(s, t) <= Cost(script)
  {
    var script := Achieved(s, t);
    forall script | Turns(script, s, t) ensures Distance(s, t) <= Cost(script) {
      Least(script, s, t);
    }
  }

  // ----- a metric

  lemma {:induction false} Symmetric(s: string, t: string)
    ensures Distance(s, t) == Distance(t, s)
    decreases |s| + |t|
  {
    if s != [] && t != [] {
      var s', t' := s[..|s| - 1], t[..|t| - 1];
      Symmetric(s, t');
      Symmetric(s', t);
      Symmetric(s', t');
    }
  }

  /** Two scripts one after the other, as one script that costs no more. */
  lemma {:induction false} Compose(a: seq<Edit>, b: seq<Edit>, s: string, t: string, u: string) returns (r: seq<Edit>)
    requires Turns(a, s, t) && Turns(b, t, u)
    ensures Turns(r, s, u) && Cost(r) <= Cost(a) + Cost(b)
    decreases |a| + |b|
  {
    if b != [] && b[|b| - 1].Insert? {
      var b', c := b[..|b| - 1], b[|b| - 1].c;
      var u' := Apply(b', t).1;
      r := Compose(a, b', s, t, u');
      TurnsInsert(r, s, u', c);
      ScriptAppend(r, Insert(c));
      r := r + [Insert(c)];
    } else if a != [] && a[|a| - 1].Delete? {
      var a', s' := a[..|a| - 1], s[..|s| - 1];
      r := Compose(a', b, s', t, u);
      r := ExtendDelete(r, s, u);
    } else if a == [] {
      assert b == [];
      r := [];
    } else {
      r := ComposeLast(a, b, s, t, u);
    }
  }

  /** The last edits of both scripts concern the same character of the middle string. */
  lemma ComposeLast(a: seq<Edit>, b: seq<Edit>, s: string, t: string, u: string) returns (r: seq<Edit>)
    requires Turns(a, s, t) && Turns(b, t, u)
    requires a != [] && !a[|a| - 1].Delete? && (b != [] ==> !b[|b| - 1].Insert?)
    ensures Turns(r, s, u) && Cost(r) <= Cost(a) + Cost(b)
    decreases |a| + |b|, 0
  {
    var a', e := a[..|a| - 1], a[|a| - 1];
    assert t != [];
    var b', f := b[..|b| - 1], b[|b| - 1];
    var x, t' := t[|t| - 1], t[..|t| - 1];
    var s' := if e.Insert? then s else s[..|s| - 1];
    var u' := Apply(b', t').1;
    assert Apply(a', s') == (true, t');
    r := Compose(a', b', s', t', u');
    if e.Insert? {
      if !f.Delete? {
        assert u == u' + [u[|u| - 1]];
        TurnsInsert(r, s, u', u[|u| - 1]);
        ScriptAppend(r, Insert(u[|u| - 1]));
        r := r + [Insert(u[|u| - 1])];
      }
    } else {
      var g := if f.Keep? then e else f;
      Parts(s);
      TurnsConsume(r, g, s', s[|s| - 1], u');
      ScriptAppend(r, g);
      r := r + [g];
    }
  }

  lemma Triangle(s: string, t: string, u: string)
    ensures Distance(s, u) <= Distance(s, t) + Distance(t, u)
  {
    var a := Achieved(s, t);
    var b := Achieved(t, u);
    var c := Compose(a, b, s, t, u);
    Least(c, s, u);
  }

  lemma {:induction false} ZeroIffEqual(s: string, t: string)
    ensures Distance(s, t) == 0 <==> s == t
    decreases |s| + |t|
  {
    if s != [] && t != [] {
      ZeroIffEqual(s[..|s| - 1], t[..|t| - 1]);
      Parts(s);
      Parts(t);
    }
  }

  function Max(a: nat, b: nat): nat {
    if a < b then b else a
  }

  lemma {:induction false} AtMostLonger(s: string, t: string)
    ensures Distance(s, t) <= Max(|s|, |t|)
    decreases |s| + |t|
  {
    if s != [] && t != [] {
      AtMostLonger(s[..|s| - 1], t[..|t| - 1]);
    }
  }

  // ----- the two rows

  /** Entry `j` of the row for the first `i` characters. */
  function Cell(s0: string, s1: string, i: nat, j: nat): int
    requires i <= |s0| && j <= |s1|
  {
    Distance(s0[..i], s1[..j])
  }

  lemma CellStep(s0: string, s1: string, i: nat, j: nat)
    requires 0 < i <= |s0| && 0 < j <= |s1|
    ensures Cell(s0, s1, i, j) ==
            Min(Min(1 + Cell(s0, s1, i, j - 1), 1 + Cell(s0, s1, i - 1, j)),
                Cell(s0, s1, i - 1, j - 1) + (if s0[i - 1] == s1[j - 1] then 0 else 1))
  {
    assert s0[..i][..i - 1] == s0[..i - 1] && s1[..j][..j - 1] == s1[..j - 1];
  }

  lemma CellEdge(s0: string, s1: string)
    ensures forall j :: 0 <= j <= |s1| ==> Cell(s0, s1, 0, j) == j
    ensures forall i :: 0 <= i <= |s0| ==> Cell(s0, s1, i, 0) == i
  {
    assert s1[..0] == [] && s0[..0] == [];
  }

  /** One row; on the first, nothing matches and the row before is the row itself. */
  method FillRow(s0: string, s1: string, i: nat, col: array<int>, prevCol: array<int>)
    requires col != prevCol && col.Length == prevCol.Length == |s1| + 1 && i <= |s0|
    requires forall j :: 0 <= j <= |s1| ==> prevCol[j] == Cell(s0, s1, if i == 0 then 0 else i - 1, j)
    modifies col
    ensures forall j :: 0 <= j <= |s1| ==> col[j] == Cell(s0, s1, i, j)
  {
    hide Cell;
    CellEdge(s0, s1);
    col[0] := i;
    for j := 1 to |s1| + 1
      invariant forall k :: 0 <= k < j ==> col[k] == Cell(s0, s1, i, k)
      invariant forall k :: 0 <= k <= |s1| ==> prevCol[k] == Cell(s0, s1, if i == 0 then 0 else i - 1, k)
    {
      if i > 0 { CellStep(s0, s1, i, j); }
      col[j] := Min(Min(1 + col[j - 1], 1 + prevCol[j]),
                    prevCol[j - 1] + (if i > 0 && s0[i - 1] == s1[j - 1] then 0 else 1));
    }
  }

  /** 1 - dist / max(len0, len1); for two empty strings the quotient is 0 / 0, which is not a number. */
  datatype Score = NaN | Score(value: real)

  function ScoreOf(s0: string, s1: string): Score {
    if s0 == [] && s1 == [] then NaN
    else Score(1.0 - Distance(s0, s1) as real / Max(|s0|, |s1|) as real)
  }

  /** No script that turns `s` into `t` costs less than `d`, and one costs that. */
  ghost predicate IsLeastCost(s: string, t: string, d: nat) {
    && (exists script :: Turns(script, s, t) && Cost(script) == d)
    && forall script :: Turns(script, s, t) ==> d <= Cost(script)
  }

  predicate IsLonger(s: string, t: string, n: nat) {
    |s| <= n && |t| <= n && (n == |s| || n == |t|)
  }

  /** What the score misses to 1 is the least cost as a fraction of the longer length. */
  ghost predicate ScoreFits(r: Score, s: string, t: string) {
    && (r.NaN? <==> s == [] && t == [])
    && (r.Score? ==> forall d: nat, n: nat :: IsLeastCost(s, t, d) && IsLonger(s, t, n) ==>
          (1.0 - r.value) * n as real == d as real)
  }

  lemma LeastCostIs(s: string, t: string, d: nat)
    ensures IsLeastCost(s, t, d) <==> d == Distance(s, t)
  {
    hide Distance, Turns, Cost;
    DistanceIsLeastCost(s, t);
  }

  lemma ScoreIsFraction(s: string, t: string)
    ensures ScoreFits(ScoreOf(s, t), s, t)
  {
    hide Distance, IsLeastCost;
    if s != [] || t != [] {
      forall d: nat, n: nat | IsLeastCost(s, t, d) && IsLonger(s, t, n)
        ensures (1.0 - ScoreOf(s, t).value) * n as real == d as real {
        LeastCostIs(s, t, d);
        assert n == Max(|s|, |t|);
        QuotientBack(d, n);
      }
    }
  }

  lemma QuotientBack(d: nat, n: nat)
    requires n > 0
    ensures (d as real / n as real) * n as real == d as real
  {
  }

  /** The score is 0 exactly if nothing is cheaper than replacing everything. */
  lemma ZeroScore(s: string, t: string, n: nat)
    requires IsLonger(s, t, n) && n > 0
    ensures ScoreOf(s, t) == Score(0.0) <==> forall script :: Turns(script, s, t) ==> n <= Cost(script)
  {
    hide Distance, Turns, Cost;
    ScoreIsFraction(s, t);
    DistanceIsLeastCost(s, t);
    LeastCostIs(s, t, Distance(s, t));
    AtMostLonger(s, t);
    var d := Distance(s, t);
    assert (1.0 - ScoreOf(s, t).value) * n as real == d as real;
    WholeFraction(1.0 - ScoreOf(s, t).value, n, d);
    if d < n {
      var script :| Turns(script, s, t) && Cost(script) == d;
    }
  }

  lemma WholeFraction(x: real, n: nat, d: nat)
    requires n > 0 && x * n as real == d as real
    ensures x == 1.0 <==> d == n
  {
    if d == n { assert (x - 1.0) * n as real == 0.0; }
  }

  method Similar(s0: string, s1: string) returns (r: Score)
    ensures r == ScoreOf(s0, s1) && ScoreFits(r, s0, s1)
  {
    hide Distance, ScoreFits;
    ScoreIsFraction(s0, s1);
    var len0, len1 := |s0| + 1, |s1| + 1;
    var col := new int[len1](_ => 0);
    var prevCol := new int[len1](_ => 0);
    for i := 0 to len1
      invariant forall k :: 0 <= k < i ==> prevCol[k] == k
    {
      prevCol[i] := i;
    }
    CellEdge(s0, s1);
    for i := 0 to len0
      invariant col != prevCol && fresh(col) && fresh(prevCol) && col.Length == prevCol.Length == len1
      invariant forall j :: 0 <= j <= |s1| ==> prevCol[j] == Cell(s0, s1, if i == 0 then 0 else i - 1, j)
    {
      FillRow(s0, s1, i, col, prevCol);
      col, prevCol := prevCol, col;
    }
    assert s0[..|s0|] == s0 && s1[..|s1|] == s1;
    var dist := prevCol[len1 - 1];
    assert dist == Distance(s0, s1);
    if |s0| == 0 && |s1| == 0 {
      return NaN;
    }
    return Score(1.0 - dist as real / Max(|s0|, |s1|) as real);
  }

  /** The score lies between 0 and 1, is 1 exactly for equal strings, and does not depend on their order. */
  lemma ScoreLaws(s0: string, s1: string)
    ensures ScoreOf(s0, s1).NaN? <==> s0 == [] && s1 == []
    ensures ScoreOf(s0, s1).Score? ==> 0.0 <= ScoreOf(s0, s1).value <= 1.0
    ensures ScoreOf(s0, s1).Score? ==> (ScoreOf(s0, s1).value == 1.0 <==> s0 == s1)
    ensures ScoreOf(s0, s1) == ScoreOf(s1, s0)
  {
    hide Distance;
    AtMostLonger(s0, s1);
    ZeroIffEqual(s0, s1);
    Symmetric(s0, s1);
    if s0 != [] || s1 != [] {
      QuotientLaws(Distance(s0, s1), Max(|s0|, |s1|));
    }
  }

  lemma QuotientLaws(d: nat, m: nat)
    requires d <= m && m > 0
    ensures 0.0 <= d as real / m as real <= 1.0
    ensures d as real / m as real == 0.0 <==> d == 0
  {
  }
}
