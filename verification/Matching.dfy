/** Matching of installed children against reference children by
    case-insensitive path: the first match among the not-yet-matched installed
    children wins and is then taken out of the working list. */
module Matching {
  import opened Wrappers
  import opened Text

  /** `FirstOrDefault(f => key(f).Equals(path, OrdinalIgnoreCase))`, as an index. */
  function FirstMatch<T>(pool: seq<T>, key: T -> string, path: string): (r: Option<nat>)
    ensures r.Some? ==> r.value < |pool| && EqualsIgnoreCase(key(pool[r.value]), path)
    ensures r.Some? ==> forall j :: 0 <= j < r.value ==> !EqualsIgnoreCase(key(pool[j]), path)
    ensures r.None? <==> forall j :: 0 <= j < |pool| ==> !EqualsIgnoreCase(key(pool[j]), path)
  {
    if pool == [] then None
    else if EqualsIgnoreCase(key(pool[0]), path) then Some(0)
    else match FirstMatch(pool[1..], key, path)
      case None => None
      case Some(i) => Some(i + 1)
  }

  /** `List.Remove` of the element at index `i`: everything else keeps its order. */
  function RemoveAt<T>(s: seq<T>, i: nat): (r: seq<T>)
    requires i < |s|
    ensures |r| == |s| - 1
    ensures forall j :: 0 <= j < i ==> r[j] == s[j]
    ensures forall j :: i <= j < |r| ==> r[j] == s[j + 1]
    ensures multiset(r) + multiset{s[i]} == multiset(s)
  {
    assert s == s[..i] + [s[i]] + s[i + 1..];
    s[..i] + s[i + 1..]
  }

  /** `idx` picks the elements of `a` out of `b`, in order: `a[k]` sits at
      `b[idx[k]]`, and the positions increase. */
  ghost predicate Embeds<T>(a: seq<T>, b: seq<T>, idx: seq<nat>) {
    && |idx| == |a|
    && (forall k :: 0 <= k < |idx| ==> idx[k] < |b| && a[k] == b[idx[k]])
    && (forall k, l :: 0 <= k < l < |idx| ==> idx[k] < idx[l])
  }

  /** `a` is `b` with some elements left out, the rest in their original order. */
  ghost predicate IsSubsequence<T>(a: seq<T>, b: seq<T>) {
    exists idx :: Embeds(a, b, idx)
  }

  lemma SubsequenceOfItself<T>(s: seq<T>)
    ensures IsSubsequence(s, s)
  {
    var idx: seq<nat> := seq(|s|, k requires 0 <= k < |s| => k);
    assert Embeds(s, s, idx);
  }

  lemma RemoveAtIsSubsequence<T>(s: seq<T>, i: nat)
    requires i < |s|
    ensures IsSubsequence(s[..i] + s[i + 1..], s)
  {
    var r := s[..i] + s[i + 1..];
    var idx: seq<nat> := seq(|r|, k requires 0 <= k < |r| => if k < i then k else k + 1);
    assert Embeds(r, s, idx);
  }

  /** Leaving out elements twice is leaving out elements once. */
  lemma SubsequenceTransitive<T>(a: seq<T>, b: seq<T>, c: seq<T>)
    requires IsSubsequence(a, b) && IsSubsequence(b, c)
    ensures IsSubsequence(a, c)
  {
    var ab :| Embeds(a, b, ab);
    var bc :| Embeds(b, c, bc);
    var ac: seq<nat> := seq(|a|, k requires 0 <= k < |a| => bc[ab[k]]);
    assert Embeds(a, c, ac);
  }

  /** The installed partner found for one reference child, and the installed
      list after that partner is taken out. */
  function Take<T>(pool: seq<T>, key: T -> string, path: string): (r: (Option<T>, seq<T>))
    ensures r.0.Some? ==> EqualsIgnoreCase(key(r.0.value), path)
    ensures r.0.None? <==> forall j :: 0 <= j < |pool| ==> !EqualsIgnoreCase(key(pool[j]), path)
    ensures r.0.None? ==> r.1 == pool
    ensures r.0.Some? ==>
              && FirstMatch(pool, key, path).Some?
              && r.0.value == pool[FirstMatch(pool, key, path).value]
              && r.1 == pool[..FirstMatch(pool, key, path).value] + pool[FirstMatch(pool, key, path).value + 1..]
    ensures r.0.Some? ==> multiset(r.1) + multiset{r.0.value} == multiset(pool)
  {
    match FirstMatch(pool, key, path)
    case None => (None, pool)
    case Some(i) => (Some(pool[i]), RemoveAt(pool, i))
  }

  /** Taking a partner out keeps the rest of the list in its order. */
  lemma TakeKeepsOrder<T>(pool: seq<T>, key: T -> string, path: string)
    ensures IsSubsequence(Take(pool, key, path).1, pool)
  {
    match FirstMatch(pool, key, path)
    case None => SubsequenceOfItself(pool);
    case Some(i) => RemoveAtIsSubsequence(pool, i);
  }

  /** The pairing the diff performs, written as two phases: `partners[k]` is the
      installed child matched to `refs[k]` (if any), `leftover` the installed
      children no reference child claimed, in their original order. */
  datatype Pairing<T> = Pairing(partners: seq<Option<T>>, leftover: seq<T>)

  /** The installed children that were matched, in reference order. */
  function Present<T>(partners: seq<Option<T>>): seq<T> {
    if partners == [] then []
    else (if partners[0].Some? then [partners[0].value] else []) + Present(partners[1..])
  }

  function Pair<T>(pool: seq<T>, refs: seq<T>, key: T -> string): (p: Pairing<T>)
    ensures |p.partners| == |refs|
    ensures forall k :: 0 <= k < |refs| && p.partners[k].Some? ==>
              EqualsIgnoreCase(key(p.partners[k].value), key(refs[k]))
    ensures multiset(Present(p.partners)) + multiset(p.leftover) == multiset(pool)
    ensures IsSubsequence(p.leftover, pool)
    ensures forall k, x :: 0 <= k < |refs| && p.partners[k].None? && x in p.leftover ==>
              !EqualsIgnoreCase(key(x), key(refs[k]))
    decreases |refs|
  {
    if refs == [] then
      SubsequenceOfItself(pool);
      Pairing([], pool)
    else
      var taken := Take(pool, key, key(refs[0]));
      var tail := Pair(taken.1, refs[1..], key);
      TakeKeepsOrder(pool, key, key(refs[0]));
      PairStep(pool, refs, key, taken.0, taken.1, tail);
      Pairing([taken.0] + tail.partners, tail.leftover)
  }

  /** `Pair` on a non-empty reference list: the head's partner, then the pairing
      of the rest against what is left. */
  lemma PairUnfold<T>(pool: seq<T>, refs: seq<T>, key: T -> string)
    requires refs != []
    ensures var taken := Take(pool, key, key(refs[0]));
            var p, tail := Pair(pool, refs, key), Pair(taken.1, refs[1..], key);
            p.partners == [taken.0] + tail.partners && p.partners[0] == taken.0
            && p.partners[1..] == tail.partners && p.leftover == tail.leftover
  {
    var taken := Take(pool, key, key(refs[0]));
    var tail := Pair(taken.1, refs[1..], key);
    assert ([taken.0] + tail.partners)[1..] == tail.partners;
  }

  /** One step of `Pair`: taking the head reference child's partner and
      pairing the rest keeps every guarantee. */
  lemma PairStep<T>(pool: seq<T>, refs: seq<T>, key: T -> string, partner: Option<T>, rest: seq<T>, tail: Pairing<T>)
    requires refs != []
    requires partner.Some? ==> EqualsIgnoreCase(key(partner.value), key(refs[0]))
    requires partner.None? <==> forall j :: 0 <= j < |pool| ==> !EqualsIgnoreCase(key(pool[j]), key(refs[0]))
    requires partner.None? ==> rest == pool
    requires partner.Some? ==> multiset(rest) + multiset{partner.value} == multiset(pool)
    requires IsSubsequence(rest, pool)
    requires |tail.partners| == |refs| - 1
    requires forall k :: 0 <= k < |refs[1..]| && tail.partners[k].Some? ==>
               EqualsIgnoreCase(key(tail.partners[k].value), key(refs[1..][k]))
    requires multiset(Present(tail.partners)) + multiset(tail.leftover) == multiset(rest)
    requires IsSubsequence(tail.leftover, rest)
    requires forall k, x :: 0 <= k < |refs[1..]| && tail.partners[k].None? && x in tail.leftover ==>
               !EqualsIgnoreCase(key(x), key(refs[1..][k]))
    ensures var p := Pairing([partner] + tail.partners, tail.leftover);
            && |p.partners| == |refs|
            && (forall k :: 0 <= k < |refs| && p.partners[k].Some? ==>
                  EqualsIgnoreCase(key(p.partners[k].value), key(refs[k])))
            && multiset(Present(p.partners)) + multiset(p.leftover) == multiset(pool)
            && IsSubsequence(p.leftover, pool)
            && (forall k, x :: 0 <= k < |refs| && p.partners[k].None? && x in p.leftover ==>
                  !EqualsIgnoreCase(key(x), key(refs[k])))
  {
    var p := Pairing([partner] + tail.partners, tail.leftover);
    assert p.partners[1..] == tail.partners;
    forall k | 0 <= k < |refs| && p.partners[k].Some?
      ensures EqualsIgnoreCase(key(p.partners[k].value), key(refs[k]))
    {
      if k > 0 {
        assert p.partners[k] == tail.partners[k - 1];
        assert refs[k] == refs[1..][k - 1];
      }
    }
    assert Present(p.partners) == (if partner.Some? then [partner.value] else []) + Present(tail.partners);
    SubsequenceTransitive(tail.leftover, rest, pool);
    UnpairedStaysUnmatched(p, partner, tail, pool, rest, refs, key);
  }

  /** The step of `Pair`'s last guarantee: the head reference child, when
      unpaired, matched nothing in the whole list, and the leftover is drawn
      from that list; the other children inherit it from the tail. */
  lemma UnpairedStaysUnmatched<T>(p: Pairing<T>, partner: Option<T>, tail: Pairing<T>, pool: seq<T>, rest: seq<T>,
                                  refs: seq<T>, key: T -> string)
    requires refs != [] && |tail.partners| == |refs| - 1
    requires p == Pairing([partner] + tail.partners, tail.leftover)
    requires partner.None? ==> forall j :: 0 <= j < |pool| ==> !EqualsIgnoreCase(key(pool[j]), key(refs[0]))
    requires IsSubsequence(tail.leftover, pool)
    requires forall k, x :: 0 <= k < |refs[1..]| && tail.partners[k].None? && x in tail.leftover ==>
               !EqualsIgnoreCase(key(x), key(refs[1..][k]))
    ensures forall k, x :: 0 <= k < |refs| && p.partners[k].None? && x in p.leftover ==>
              !EqualsIgnoreCase(key(x), key(refs[k]))
  {
    var idx :| Embeds(tail.leftover, pool, idx);
    forall k, x | 0 <= k < |refs| && p.partners[k].None? && x in p.leftover
      ensures !EqualsIgnoreCase(key(x), key(refs[k]))
    {
      if k == 0 {
        var m :| 0 <= m < |tail.leftover| && tail.leftover[m] == x;
        assert x == pool[idx[m]];
      } else {
        assert p.partners[k] == tail.partners[k - 1];
        assert refs[k] == refs[1..][k - 1];
      }
    }
  }
}
