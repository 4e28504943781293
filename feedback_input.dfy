/** Turning the two text areas into items: feedback is split on runs of two
    or more newlines (`/\n\n+/`), accomplishments on runs of one or more
    (`/\n+/`), and pieces that are whitespace only are dropped. */
module FeedbackInput {
  import opened Text
  import opened Seqs

  /** Length of the run of newlines that `s` starts with. */
  function NewlineRun(s: string): (n: nat)
    ensures n <= |s|
    ensures forall i :: 0 <= i < n ==> s[i] == '\n'
    ensures n < |s| ==> s[n] != '\n'
  {
    if s != [] && s[0] == '\n' then 1 + NewlineRun(s[1..]) else 0
  }

  /** `k` newlines in a row start at index `i` of `s`. */
  predicate RunAt(s: string, i: nat, k: nat) {
    i + k <= |s| && forall j :: i <= j < i + k ==> s[j] == '\n'
  }

  /** `s` holds `k` newlines in a row somewhere. */
  ghost predicate HasRun(s: string, k: nat) {
    exists i: nat :: RunAt(s, i, k)
  }

  /** `s.split(/\n{k,}/)`, the regular expression matching each maximal run
      of at least `k` newlines (a match can only begin where a run begins,
      and it is greedy). */
  function SplitRuns(s: string, k: nat): (r: seq<string>)
    requires k >= 1
    ensures |r| >= 1
    decreases |s|
  {
    if s == [] then [[]]
    else
      var n := NewlineRun(s);
      if n >= k then [[]] + SplitRuns(s[n..], k)
      else
        var m := if n == 0 then 1 else n;
        Extend(s[..m], SplitRuns(s[m..], k))
  }

  /** `x` put in front of the first piece of `r`. */
  function Extend(x: string, r: seq<string>): (e: seq<string>)
    requires |r| >= 1
    ensures |e| == |r| && e[0] == x + r[0] && e[1..] == r[1..]
  {
    [x + r[0]] + r[1..]
  }

  /** Extending by two parts in turn is extending by both at once. */
  lemma ExtendTwice(x: string, y: string, r: seq<string>)
    requires |r| >= 1
    ensures Extend(x, Extend(y, r)) == Extend(x + y, r)
  {
    assert x + (y + r[0]) == (x + y) + r[0];
  }

  /** No piece of the split holds `k` newlines in a row, and a text that
      starts with another character starts its first piece with it. */
  lemma {:induction false} SplitRunsPieces(s: string, k: nat)
    requires k >= 1
    ensures forall i :: 0 <= i < |SplitRuns(s, k)| ==> !HasRun(SplitRuns(s, k)[i], k)
    ensures s != [] && s[0] != '\n' ==> SplitRuns(s, k)[0] != [] && SplitRuns(s, k)[0][0] == s[0]
    decreases |s|
  {
    if s == [] {
      NoRunInShort([], k);
    } else {
      var n := NewlineRun(s);
      if n >= k {
        SplitRunsPieces(s[n..], k);
        NoRunInShort([], k);
      } else {
        var m := if n == 0 then 1 else n;
        var r := SplitRuns(s[m..], k);
        SplitRunsPieces(s[m..], k);
        if n == 0 {
          RunAfterStop(s[0], r[0], k);
          assert s[..m] == [s[0]];
        } else {
          assert s[m..] == [] || s[m..][0] != '\n';
          RunPastShortPrefix(s[..m], r[0], k);
        }
      }
    }
  }

  /** A text shorter than `k` has no run of `k` newlines. */
  lemma NoRunInShort(p: string, k: nat)
    requires k >= 1 && |p| < k
    ensures !HasRun(p, k)
  {
  }

  /** A run of `k` newlines in a text behind a character other than a
      newline lies in the text. */
  lemma RunAfterStop(c: char, q: string, k: nat)
    requires k >= 1 && c != '\n'
    ensures HasRun([c] + q, k) ==> HasRun(q, k)
  {
    if HasRun([c] + q, k) {
      var i: nat :| RunAt([c] + q, i, k);
      assert ([c] + q)[0] == c;
      assert i >= 1;
      forall j | i - 1 <= j < i - 1 + k ensures q[j] == '\n' {
        assert q[j] == ([c] + q)[j + 1];
      }
      assert RunAt(q, i - 1, k);
    }
  }

  /** Fewer than `k` newlines in front of a text that is empty or starts
      with another character: a run of `k` newlines lies in the text. */
  lemma RunPastShortPrefix(p: string, q: string, k: nat)
    requires k >= 1 && |p| < k
    requires q == [] || q[0] != '\n'
    ensures HasRun(p + q, k) ==> HasRun(q, k)
  {
    if HasRun(p + q, k) {
      var i: nat :| RunAt(p + q, i, k);
      assert |p| < |p + q| ==> (p + q)[|p|] == q[0];
      assert i >= |p|;
      forall j | i - |p| <= j < i - |p| + k ensures q[j] == '\n' {
        assert q[j] == (p + q)[j + |p|];
      }
      assert RunAt(q, i - |p|, k);
    }
  }

  /** The non-blank pieces, in order: `split(...).filter(item => item.trim())`. */
  function Items(s: string, k: nat): (r: seq<string>)
    requires k >= 1
    ensures IsSubsequence(r, SplitRuns(s, k))
    ensures forall i :: 0 <= i < |r| ==> !IsBlank(r[i])
    ensures forall p :: p in SplitRuns(s, k) && !IsBlank(p) ==> p in r
  {
    var keep := (p: string) => !IsBlank(p);
    FilterIsSubsequence(SplitRuns(s, k), keep);
    FilterCounts(SplitRuns(s, k), keep);
    assert forall p :: p in SplitRuns(s, k) && keep(p) ==> p in Filter(SplitRuns(s, k), keep) by {
      forall p | p in SplitRuns(s, k) && keep(p) ensures p in Filter(SplitRuns(s, k), keep) {
        assert multiset(SplitRuns(s, k))[p] > 0;
      }
    }
    Filter(SplitRuns(s, k), keep)
  }

  /** The feedback items (line 196). */
  function FeedbackItems(feedback: string): seq<string> {
    Items(feedback, 2)
  }

  /** The accomplishment items (line 221). */
  function AccomplishmentItems(accomplishments: string): seq<string> {
    Items(accomplishments, 1)
  }

  // ---------------------------------------------------------------- the inverse

  function Newlines(k: nat): (r: string)
    ensures |r| == k && forall i :: 0 <= i < k ==> r[i] == '\n'
  {
    if k == 0 then [] else "\n" + Newlines(k - 1)
  }

  /** A piece that a split can give back: not empty, no newline at either
      end and no run of `k` newlines inside. */
  ghost predicate Splittable(p: string, k: nat) {
    p != [] && p[0] != '\n' && p[|p| - 1] != '\n' && !HasRun(p, k)
  }

  /** A tail of a text without a run of `k` newlines has none either. */
  lemma NoRunInTail(p: string, m: nat, k: nat)
    requires m <= |p|
    requires !HasRun(p, k)
    ensures !HasRun(p[m..], k)
  {
    TailRun(p, m, k);
  }

  /** A run in a tail is a run in the whole text. */
  lemma TailRun(p: string, m: nat, k: nat)
    requires m <= |p|
    ensures HasRun(p[m..], k) ==> HasRun(p, k)
  {
    if HasRun(p[m..], k) {
      var i: nat :| RunAt(p[m..], i, k);
      forall j | i + m <= j < i + m + k ensures p[j] == '\n' {
        assert p[j] == p[m..][j - m];
      }
      assert RunAt(p, i + m, k);
    }
  }

  /** Text after a piece that does not end in a newline cannot lengthen the
      newline run the piece starts with. */
  lemma {:induction false} RunInPrefix(p: string, t: string)
    requires p != [] && p[|p| - 1] != '\n'
    ensures NewlineRun(p + t) == NewlineRun(p) < |p|
    decreases |p|
  {
    if p[0] == '\n' {
      assert |p| > 1;
      assert (p + t)[1..] == p[1..] + t;
      RunInPrefix(p[1..], t);
    }
  }

  /** One step of the split when the text does not start with a separator. */
  lemma SplitStep(s: string, k: nat)
    requires k >= 1 && s != [] && NewlineRun(s) < k
    ensures var m := if NewlineRun(s) == 0 then 1 else NewlineRun(s);
      SplitRuns(s, k) == Extend(s[..m], SplitRuns(s[m..], k))
  {
  }

  /** The same step for a text made of a piece and what follows it. */
  lemma SplitStepPrefix(p: string, t: string, k: nat, m: nat)
    requires k >= 1 && 1 <= m <= |p| && NewlineRun(p + t) < k
    requires m == if NewlineRun(p + t) == 0 then 1 else NewlineRun(p + t)
    ensures SplitRuns(p + t, k) == Extend(p[..m], SplitRuns(p[m..] + t, k))
  {
    var s := p + t;
    SplitStep(s, k);
    assert s[..m] == p[..m];
    assert s[m..] == p[m..] + t;
  }

  /** Splitting a piece followed by text that does not continue it with a
      newline run: the piece is the start of the first result. */
  lemma {:induction false} SplitPrefix(p: string, t: string, k: nat)
    requires k >= 1
    requires !HasRun(p, k)
    requires p != [] ==> p[|p| - 1] != '\n'
    ensures SplitRuns(p + t, k) == Extend(p, SplitRuns(t, k))
    decreases |p|
  {
    if p == [] {
      var r := SplitRuns(t, k);
      assert p + t == t;
      assert p + r[0] == r[0];
    } else {
      RunInPrefix(p, t);
      var n := NewlineRun(p + t);
      assert n < k by {
        if n >= k {
          assert RunAt(p, 0, k);
        }
      }
      var m := if n == 0 then 1 else n;
      NoRunInTail(p, m, k);
      var r := SplitRuns(t, k);
      calc {
        SplitRuns(p + t, k);
        { SplitStepPrefix(p, t, k, m); }
        Extend(p[..m], SplitRuns(p[m..] + t, k));
        { SplitPrefix(p[m..], t, k); }
        Extend(p[..m], Extend(p[m..], r));
        { ExtendTwice(p[..m], p[m..], r); }
        Extend(p[..m] + p[m..], r);
        { assert p[..m] + p[m..] == p; }
        Extend(p, r);
      }
    }
  }

  /** A joined text starts with the first character of its first piece. */
  lemma JoinStart(pieces: seq<string>, sep: string)
    requires pieces != [] && pieces[0] != []
    ensures Join(pieces, sep) != [] && Join(pieces, sep)[0] == pieces[0][0]
  {
  }

  /** A leading run of `j` newlines, `j` at least `k`, is one separator,
      however long it is. */
  lemma SplitAtRun(rest: string, k: nat, j: nat)
    requires 1 <= k <= j
    requires rest == [] || rest[0] != '\n'
    ensures SplitRuns(Newlines(j) + rest, k) == [[]] + SplitRuns(rest, k)
  {
    var t := Newlines(j) + rest;
    NewlineRunAt(Newlines(j), rest);
    assert t[j..] == rest;
  }

  /** Joining splittable pieces with `j` newlines, `j` at least `k`, and
      splitting again gives the pieces back. */
  lemma {:induction false} SplitJoinRoundTrip(pieces: seq<string>, k: nat, j: nat)
    requires 1 <= k <= j
    requires pieces != []
    requires forall i :: 0 <= i < |pieces| ==> Splittable(pieces[i], k)
    ensures SplitRuns(Join(pieces, Newlines(j)), k) == pieces
  {
    var p := pieces[0];
    if |pieces| == 1 {
      SplitPrefix(p, [], k);
      assert p + [] == p;
    } else {
      var rest := Join(pieces[1..], Newlines(j));
      var t := Newlines(j) + rest;
      assert Join(pieces, Newlines(j)) == p + t;
      SplitJoinRoundTrip(pieces[1..], k, j);
      JoinStart(pieces[1..], Newlines(j));
      SplitAtRun(rest, k, j);
      SplitPrefix(p, t, k);
      assert p + [] == p;
      assert [p] + pieces[1..] == pieces;
    }
  }

  lemma {:induction false} NewlineRunAt(nl: string, rest: string)
    requires forall i :: 0 <= i < |nl| ==> nl[i] == '\n'
    requires rest == [] || rest[0] != '\n'
    ensures NewlineRun(nl + rest) == |nl|
    decreases |nl|
  {
    if nl == [] {
      assert nl + rest == rest;
    } else {
      assert (nl + rest)[1..] == nl[1..] + rest;
      NewlineRunAt(nl[1..], rest);
    }
  }

  /** Items written one per paragraph (or per line), none of them blank,
      are read back exactly, whatever the number of blank lines between. */
  lemma ItemsRoundTrip(pieces: seq<string>, k: nat, j: nat)
    requires 1 <= k <= j
    requires pieces != []
    requires forall i :: 0 <= i < |pieces| ==> Splittable(pieces[i], k) && !IsBlank(pieces[i])
    ensures Items(Join(pieces, Newlines(j)), k) == pieces
  {
    SplitJoinRoundTrip(pieces, k, j);
    FilterAllKept(pieces, (p: string) => !IsBlank(p));
  }
}
