/** The e-mail format test `/\S+@\S+\.\S+/.test(s)` shared by the sign-up and
    forgot-password pages. The pattern is not anchored, so it succeeds when some
    substring of s has the shape  non-space+ '@' non-space+ '.' non-space+ .
    `Matches` states that reading of the pattern over indices; `IsEmailLike`
    decides it with one left-to-right scan, and `IsEmailLikeCorrect` proves the
    two agree on every string. */
module EmailFormat {
  import opened Text

  /** No character of s[i..j] is whitespace. */
  ghost predicate NoSpaceIn(s: string, i: int, j: int)
    requires 0 <= i <= j <= |s|
  {
    forall k :: i <= k < j ==> !IsSpace(s[k])
  }

  /** The pattern matches s[i..j]: s[i..a] is the first run, s[a] the '@',
      s[a + 1..d] the second run, s[d] the '.', and s[d + 1..j] the third run;
      '@' and '.' are not whitespace, so the whole of s[i..j] is free of it. */
  ghost predicate Matches(s: string)
  {
    exists i, a, d, j :: 0 <= i < a && a + 1 < d && d + 1 < j <= |s|
      && s[a] == '@' && s[d] == '.' && NoSpaceIn(s, i, j)
  }

  /** The states of the scan. 0: no non-space character since the last space;
      1: a run has started; 2: the run holds an '@' after its first character;
      3: at least one character follows that '@'; 4: a '.' follows that;
      5: the pattern has matched. */
  type ScanState = q: int | 0 <= q <= 5

  function Step(q: ScanState, c: char): ScanState
  {
    if q == 5 then 5
    else if IsSpace(c) then 0
    else if q == 0 then 1
    else if q == 1 then (if c == '@' then 2 else 1)
    else if q == 2 then 3
    else if q == 3 then (if c == '.' then 4 else 3)
    else 5
  }

  /** The state reached from q after reading all of s. */
  function Scan(q: ScanState, s: string): ScanState
    decreases |s|
  {
    if s == [] then q else Scan(Step(q, s[0]), s[1..])
  }

  /** `validateEmail(s)`: the scan from the start state ends in the match state. */
  predicate IsEmailLike(s: string)
  {
    Scan(0, s) == 5
  }

  /** What remains to be read from state q for the partial match in progress to
      be completed by the text s (state 0 has no partial match). */
  ghost predicate Pending(q: ScanState, s: string)
  {
    if q == 0 then false
    else if q == 1 then
      exists a, d, j :: 0 <= a && a + 1 < d && d + 1 < j <= |s|
        && s[a] == '@' && s[d] == '.' && NoSpaceIn(s, 0, j)
    else if q == 2 then
      exists d, j :: 0 < d && d + 1 < j <= |s| && s[d] == '.' && NoSpaceIn(s, 0, j)
    else if q == 3 then
      exists d, j :: 0 <= d && d + 1 < j <= |s| && s[d] == '.' && NoSpaceIn(s, 0, j)
    else if q == 4 then
      s != [] && !IsSpace(s[0])
    else
      true
  }

  /** From state q the text s leads to a match: either s matches on its own or
      it completes the partial match. */
  ghost predicate Accepts(q: ScanState, s: string)
  {
    Matches(s) || Pending(q, s)
  }

  lemma NoSpaceTail(s: string, i: int, j: int)
    requires s != [] && 0 <= i <= j <= |s| - 1
    ensures NoSpaceIn(s[1..], i, j) <==> NoSpaceIn(s, i + 1, j + 1)
  {
    if NoSpaceIn(s[1..], i, j) {
      forall k | i + 1 <= k < j + 1 ensures !IsSpace(s[k]) {
        assert s[k] == s[1..][k - 1];
      }
    }
  }

  lemma NoSpaceCons(s: string, j: int)
    requires s != [] && 0 <= j <= |s| - 1
    ensures !IsSpace(s[0]) && NoSpaceIn(s[1..], 0, j) <==> NoSpaceIn(s, 0, j + 1)
  {
    NoSpaceTail(s, 0, j);
  }

  /** A match in s[1..] is a match in s. */
  lemma MatchesFromTail(s: string)
    requires s != [] && Matches(s[1..])
    ensures Matches(s)
  {
    var t := s[1..];
    var i, a, d, j :| 0 <= i < a && a + 1 < d && d + 1 < j <= |t|
      && t[a] == '@' && t[d] == '.' && NoSpaceIn(t, i, j);
    NoSpaceTail(s, i, j);
    assert s[a + 1] == '@' && s[d + 1] == '.';
  }

  /** A match in s either lies in s[1..] or begins with s[0] followed by '@'. */
  lemma MatchesCons(s: string)
    requires s != []
    ensures Matches(s) <==> Matches(s[1..]) || (!IsSpace(s[0]) && Pending(1, s[1..]))
  {
    var t := s[1..];
    if Matches(s) {
      var i, a, d, j :| 0 <= i < a && a + 1 < d && d + 1 < j <= |s|
        && s[a] == '@' && s[d] == '.' && NoSpaceIn(s, i, j);
      assert t[a - 1] == '@' && t[d - 1] == '.';
      if i > 0 {
        NoSpaceTail(s, i - 1, j - 1);
      } else if a > 1 {
        NoSpaceTail(s, 0, j - 1);
        assert NoSpaceIn(t, 0, j - 1);
      } else {
        NoSpaceCons(s, j - 1);
        assert Pending(1, t);
      }
    }
    if Matches(t) {
      MatchesFromTail(s);
    }
    if !IsSpace(s[0]) && Pending(1, t) {
      var a, d, j :| 0 <= a && a + 1 < d && d + 1 < j <= |t|
        && t[a] == '@' && t[d] == '.' && NoSpaceIn(t, 0, j);
      NoSpaceCons(s, j);
      assert s[a + 1] == '@' && s[d + 1] == '.';
      assert NoSpaceIn(s, 0, j + 1);
    }
  }

  /** A partial match begun in state 1 already holds a '.' past position 0. */
  lemma PendingOneImpliesTwo(t: string)
    requires Pending(1, t)
    ensures Pending(2, t) && Pending(3, t) && t != [] && !IsSpace(t[0])
  {
    var a, d, j :| 0 <= a && a + 1 < d && d + 1 < j <= |t|
      && t[a] == '@' && t[d] == '.' && NoSpaceIn(t, 0, j);
    assert !IsSpace(t[0]);
  }

  /** A whitespace character ends every partial match. */
  lemma SpaceResets(q: ScanState, s: string)
    requires q < 5 && s != [] && IsSpace(s[0])
    ensures Accepts(q, s) <==> Accepts(0, s[1..])
  {
    MatchesCons(s);
  }

  lemma StepState1(s: string)
    requires s != [] && !IsSpace(s[0])
    ensures Accepts(1, s) <==> Accepts(Step(1, s[0]), s[1..])
  {
    var t := s[1..];
    MatchesCons(s);
    if s[0] == '@' {
      if Pending(1, s) {
        var a, d, j :| 0 <= a && a + 1 < d && d + 1 < j <= |s|
          && s[a] == '@' && s[d] == '.' && NoSpaceIn(s, 0, j);
        NoSpaceTail(s, 0, j - 1);
        assert t[d - 1] == '.' && NoSpaceIn(t, 0, j - 1);
        assert Pending(2, t);
      }
      if Pending(1, t) { PendingOneImpliesTwo(t); }
      if Pending(2, t) {
        var d, j :| 0 < d && d + 1 < j <= |t| && t[d] == '.' && NoSpaceIn(t, 0, j);
        NoSpaceCons(s, j);
        assert s[d + 1] == '.';
        assert Pending(1, s);
      }
    } else {
      if Pending(1, s) {
        var a, d, j :| 0 <= a && a + 1 < d && d + 1 < j <= |s|
          && s[a] == '@' && s[d] == '.' && NoSpaceIn(s, 0, j);
        NoSpaceTail(s, 0, j - 1);
        assert t[a - 1] == '@' && t[d - 1] == '.' && NoSpaceIn(t, 0, j - 1);
        assert Pending(1, t);
      }
    }
  }

  lemma StepState2(s: string)
    requires s != [] && !IsSpace(s[0])
    ensures Accepts(2, s) <==> Accepts(Step(2, s[0]), s[1..])
  {
    var t := s[1..];
    MatchesCons(s);
    if Pending(1, t) { PendingOneImpliesTwo(t); }
    if Pending(2, s) {
      var d, j :| 0 < d && d + 1 < j <= |s| && s[d] == '.' && NoSpaceIn(s, 0, j);
      NoSpaceTail(s, 0, j - 1);
      assert t[d - 1] == '.';
      assert Pending(3, t);
    }
    if Pending(3, t) {
      var d, j :| 0 <= d && d + 1 < j <= |t| && t[d] == '.' && NoSpaceIn(t, 0, j);
      NoSpaceCons(s, j);
      assert s[d + 1] == '.';
      assert Pending(2, s);
    }
  }

  lemma StepState3(s: string)
    requires s != [] && !IsSpace(s[0])
    ensures Accepts(3, s) <==> Accepts(Step(3, s[0]), s[1..])
  {
    var t := s[1..];
    MatchesCons(s);
    if Pending(1, t) { PendingOneImpliesTwo(t); }
    if Pending(3, s) {
      var d, j :| 0 <= d && d + 1 < j <= |s| && s[d] == '.' && NoSpaceIn(s, 0, j);
      assert !IsSpace(s[1]);
      if d > 0 {
        NoSpaceTail(s, 0, j - 1);
        assert t[d - 1] == '.';
        assert Pending(3, t);
      }
    }
    if s[0] == '.' {
      if t != [] && !IsSpace(t[0]) {
        NoSpaceCons(s, 1);
        assert Pending(3, s);
      }
      if Pending(3, t) {
        var d, j :| 0 <= d && d + 1 < j <= |t| && t[d] == '.' && NoSpaceIn(t, 0, j);
        assert !IsSpace(t[0]);
      }
    } else {
      if Pending(3, t) {
        var d, j :| 0 <= d && d + 1 < j <= |t| && t[d] == '.' && NoSpaceIn(t, 0, j);
        NoSpaceCons(s, j);
        assert s[d + 1] == '.';
        assert Pending(3, s);
      }
    }
  }

  /** One step of the scan preserves what the rest of the text must supply. */
  lemma StepPreservesAccepts(q: ScanState, s: string)
    requires s != []
    ensures Accepts(q, s) <==> Accepts(Step(q, s[0]), s[1..])
  {
    if q == 5 {
    } else if IsSpace(s[0]) {
      SpaceResets(q, s);
    } else if q == 0 {
      MatchesCons(s);
    } else if q == 1 {
      StepState1(s);
    } else if q == 2 {
      StepState2(s);
    } else if q == 3 {
      StepState3(s);
    } else {
      MatchesCons(s);
    }
  }

  /** The scan from q ends in the match state exactly when s is accepted from q. */
  lemma {:induction false} ScanCorrect(q: ScanState, s: string)
    ensures Scan(q, s) == 5 <==> Accepts(q, s)
    decreases |s|
  {
    if s != [] {
      StepPreservesAccepts(q, s);
      ScanCorrect(Step(q, s[0]), s[1..]);
    }
  }

  /** The scan decides the regular expression, in both directions. */
  lemma IsEmailLikeCorrect(s: string)
    ensures IsEmailLike(s) <==> Matches(s)
  {
    ScanCorrect(0, s);
  }

  /** A match inside the slice s[lo..hi] is a match in s. */
  lemma MatchesOfSlice(s: string, lo: int, hi: int)
    requires 0 <= lo <= hi <= |s| && Matches(s[lo..hi])
    ensures Matches(s)
  {
    var t := s[lo..hi];
    var i, a, d, j :| 0 <= i < a && a + 1 < d && d + 1 < j <= |t|
      && t[a] == '@' && t[d] == '.' && NoSpaceIn(t, i, j);
    forall k | i + lo <= k < j + lo ensures !IsSpace(s[k]) {
      assert s[k] == t[k - lo];
    }
    assert s[a + lo] == t[a] && s[d + lo] == t[d];
    assert NoSpaceIn(s, i + lo, j + lo);
  }

  /** When everything outside s[lo..hi] is whitespace, every match in s lies
      inside that slice. */
  lemma MatchesInSlice(s: string, lo: int, hi: int)
    requires 0 <= lo <= hi <= |s| && Matches(s)
    requires forall k :: 0 <= k < lo ==> IsSpace(s[k])
    requires forall k :: hi <= k < |s| ==> IsSpace(s[k])
    ensures Matches(s[lo..hi])
  {
    var t := s[lo..hi];
    var i, a, d, j :| 0 <= i < a && a + 1 < d && d + 1 < j <= |s|
      && s[a] == '@' && s[d] == '.' && NoSpaceIn(s, i, j);
    assert !IsSpace(s[i]) && !IsSpace(s[j - 1]);
    forall k | i - lo <= k < j - lo ensures !IsSpace(t[k]) {
      assert t[k] == s[k + lo];
    }
    assert t[a - lo] == s[a] && t[d - lo] == s[d];
    assert NoSpaceIn(t, i - lo, j - lo);
  }

  /** A blank string never has the e-mail shape: the pattern needs an '@'. */
  lemma BlankIsNotEmailLike(s: string)
    requires IsBlank(s)
    ensures !IsEmailLike(s)
  {
    IsEmailLikeCorrect(s);
  }
}
