/**
 * The two string rules index.js relies on: `String.prototype.replace` with a
 * string pattern (only the FIRST occurrence is replaced) and
 * `split(sep)[0]` (the text before the first separator).
 */
module Text {
  import opened Wrappers

  /** `pat` occurs in `s` starting at index `i`. */
  predicate OccursAt(s: string, pat: string, i: nat)
  {
    i + |pat| <= |s| && s[i..i + |pat|] == pat
  }

  /** An occurrence in `s[1..]` is an occurrence in `s` one index further on. */
  lemma OccursInTail(s: string, pat: string)
    requires |s| > 0
    ensures forall j: nat :: 0 < j ==> (OccursAt(s, pat, j) <==> OccursAt(s[1..], pat, j - 1))
  {
  }

  /** The index `s.indexOf(pat)` reports: the first occurrence, or none. */
  function FirstOccurrence(s: string, pat: string): (r: Option<nat>)
    ensures r.Some? ==> OccursAt(s, pat, r.value)
    ensures forall j: nat :: (r.None? || j < r.value) ==> !OccursAt(s, pat, j)
    decreases |s|
  {
    if |s| < |pat| then None
    else if s[..|pat|] == pat then Some(0)
    else
      assert !OccursAt(s, pat, 0) by { assert s[0..|pat|] == s[..|pat|]; }
      OccursInTail(s, pat);
      match FirstOccurrence(s[1..], pat)
      case None => None
      case Some(k) => Some(k + 1)
  }

  /** An occurrence with none before it is the one `FirstOccurrence` reports. */
  lemma FirstOccurrenceAt(s: string, pat: string, i: nat)
    requires OccursAt(s, pat, i)
    requires forall j: nat :: j < i ==> !OccursAt(s, pat, j)
    ensures FirstOccurrence(s, pat) == Some(i)
  {
  }

  /** `s.replace(pat, '')`: the first occurrence of `pat` is cut out; without one, `s` is returned.
      Putting `pat` back where it was cut recovers `s`. */
  function RemoveFirst(s: string, pat: string): (r: string)
    ensures FirstOccurrence(s, pat).None? ==> r == s
    ensures FirstOccurrence(s, pat).Some? ==>
      var i := FirstOccurrence(s, pat).value;
      |r| + |pat| == |s| && i <= |r| && r[..i] + pat + r[i..] == s
  {
    match FirstOccurrence(s, pat)
    case None => s
    case Some(i) =>
      var r := s[..i] + s[i + |pat|..];
      assert r[..i] == s[..i] && r[i..] == s[i + |pat|..];
      assert s == s[..i] + s[i..i + |pat|] + s[i + |pat|..];
      r
  }

  /** Cutting out the first occurrence at `i` leaves what stands before and after it. */
  lemma RemoveFirstAt(s: string, pat: string, i: nat)
    requires FirstOccurrence(s, pat) == Some(i)
    ensures RemoveFirst(s, pat) == s[..i] + s[i + |pat|..]
  {
  }

  /** When the text before an occurrence cannot start one, that occurrence is the one cut out. */
  lemma RemoveFirstAfter(p: string, pat: string, t: string)
    requires |pat| > 0 && pat[0] !in p
    ensures RemoveFirst(p + pat + t, pat) == p + t
  {
    var s, i := p + pat + t, |p|;
    assert OccursAt(s, pat, i) by { assert s[i..i + |pat|] == pat; }
    forall j: nat | j < i ensures !OccursAt(s, pat, j) {
      assert s[j] == p[j];
      if j + |pat| <= |s| {
        assert s[j..j + |pat|][0] == s[j];
      }
    }
    FirstOccurrenceAt(s, pat, i);
    RemoveFirstAt(s, pat, i);
    assert s[..i] == p && s[i + |pat|..] == t;
  }

  /** `s.split(c)[0]`: the longest prefix of `s` that does not contain `c`. */
  function BeforeFirst(s: string, c: char): (r: string)
    ensures r <= s
    ensures c !in r
    ensures |r| < |s| ==> s[|r|] == c
  {
    match FirstOccurrence(s, [c])
    case None =>
      assert forall j :: 0 <= j < |s| ==> s[j] != c by {
        forall j | 0 <= j < |s| ensures s[j] != c {
          assert !OccursAt(s, [c], j);
          assert s[j..j + 1] == [s[j]];
        }
      }
      s
    case Some(i) =>
      assert OccursAt(s, [c], i) && s[i..i + 1] == [s[i]];
      assert forall j :: 0 <= j < i ==> s[j] != c by {
        forall j | 0 <= j < i ensures s[j] != c {
          assert !OccursAt(s, [c], j);
          assert s[j..j + 1] == [s[j]];
        }
      }
      s[..i]
  }
}
