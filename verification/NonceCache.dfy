/**
 * The single-use memory of src/approvals/verify-device.js: an insertion-ordered
 * map of decided nonces, pruned from its old end by age and by size.
 */
module NonceCaches {
  import opened Basics

  /** One cached nonce: the digest of the bytes that used it, and when. */
  datatype Seen = Seen(nonce: int, digest: int, at: int)

  // ---- What one operation does, for any clock ----

  /** The order a deletion leaves: every other entry keeps its place. */
  function Without(s: seq<Seen>, nonce: int): seq<Seen> {
    if s == [] then []
    else (if s[0].nonce == nonce then [] else [s[0]]) + Without(s[1..], nonce)
  }

  /** What is left once the old end has been cut back to the first entry young enough in a list short enough. */
  function Window(s: seq<Seen>, cutoff: int, max: nat): seq<Seen> {
    if s == [] || (s[0].at >= cutoff && |s| <= max) then s
    else Window(s[1..], cutoff, max)
  }

  function Lookup(s: seq<Seen>, nonce: int): Option<int> {
    if s == [] then None
    else if s[0].nonce == nonce then Some(s[0].digest)
    else Lookup(s[1..], nonce)
  }

  class NonceCache {
    const max: nat
    const ttlMs: nat
    var entries: seq<Seen>

    constructor (max: nat := 10000, ttlMs: nat := 600000)
      ensures this.max == max && this.ttlMs == ttlMs && entries == []
    {
      this.max, this.ttlMs, entries := max, ttlMs, [];
    }

    /** Walks the map from its oldest entry and stops at the first that may stay. */
    method Prune(now: int)
      modifies this`entries
      ensures entries == Window(old(entries), now - ttlMs, max)
    {
      var cutoff := now - ttlMs;
      while entries != [] && !(entries[0].at >= cutoff && |entries| <= max)
        invariant Window(entries, cutoff, max) == Window(old(entries), cutoff, max)
        decreases |entries|
      {
        entries := entries[1..];
      }
    }

    method Get(now: int, nonce: int) returns (digest: Option<int>)
      modifies this`entries
      ensures entries == Window(old(entries), now - ttlMs, max)
      ensures digest == Lookup(entries, nonce)
    {
      Prune(now);
      digest := None;
      var i := 0;
      while i < |entries|
        invariant 0 <= i <= |entries|
        invariant Lookup(entries, nonce) == Lookup(entries[i..], nonce)
      {
        if entries[i].nonce == nonce {
          return Some(entries[i].digest);
        }
        i := i + 1;
      }
    }

    method Add(now: int, nonce: int, digest: int)
      modifies this`entries
      ensures entries == Window(Without(old(entries), nonce) + [Seen(nonce, digest, now)], now - ttlMs, max)
    {
      var kept := [];
      var i := 0;
      while i < |entries|
        invariant 0 <= i <= |entries|
        invariant entries == old(entries)
        invariant Without(entries, nonce) == kept + Without(entries[i..], nonce)
      {
        if entries[i].nonce != nonce {
          kept := kept + [entries[i]];
        }
        i := i + 1;
      }
      assert kept == Without(entries, nonce);
      entries := kept + [Seen(nonce, digest, now)];
      Prune(now);
    }
  }

  // ---- Runs ----

  datatype Use = Get(at: int) | Add(nonce: int, digest: int, at: int)

  predicate Monotone(uses: seq<Use>) {
    forall i, j | 0 <= i <= j < |uses| :: uses[i].at <= uses[j].at
  }

  /** The cache after a run that starts empty. */
  function Cache(uses: seq<Use>, ttlMs: nat, max: nat): seq<Seen> {
    if uses == [] then []
    else
      var before := Cache(uses[..|uses| - 1], ttlMs, max);
      match uses[|uses| - 1]
      case Get(at) => Window(before, at - ttlMs, max)
      case Add(nonce, digest, at) => Window(Without(before, nonce) + [Seen(nonce, digest, at)], at - ttlMs, max)
  }

  /** The specification forgets nothing: the latest add of every nonce, oldest first. */
  function Latest(uses: seq<Use>): seq<Seen> {
    if uses == [] then []
    else
      var before := Latest(uses[..|uses| - 1]);
      match uses[|uses| - 1]
      case Get(_) => before
      case Add(nonce, digest, at) => Without(before, nonce) + [Seen(nonce, digest, at)]
  }

  /** Of a list, the entries not older than the cutoff. */
  function Fresh(s: seq<Seen>, cutoff: int): seq<Seen> {
    if s == [] then []
    else (if s[0].at >= cutoff then [s[0]] else []) + Fresh(s[1..], cutoff)
  }

  function Newest(s: seq<Seen>, max: nat): seq<Seen> {
    if |s| <= max then s else s[|s| - max..]
  }

  /** Oldest first. */
  predicate Sorted(s: seq<Seen>) {
    s != [] ==> (forall x | x in s[1..] :: s[0].at <= x.at) && Sorted(s[1..])
  }

  predicate DistinctNonces(s: seq<Seen>) {
    s != [] ==> (forall x | x in s[1..] :: s[0].nonce != x.nonce) && DistinctNonces(s[1..])
  }

  lemma {:induction false} WithoutMembers(s: seq<Seen>, nonce: int)
    ensures forall x :: x in Without(s, nonce) <==> x in s && x.nonce != nonce
  {
    if s != [] {
      WithoutMembers(s[1..], nonce);
      assert forall x :: x in s <==> x == s[0] || x in s[1..];
    }
  }

  lemma {:induction false} WithoutKeepsOrder(s: seq<Seen>, nonce: int)
    ensures Sorted(s) ==> Sorted(Without(s, nonce))
    ensures DistinctNonces(s) ==> DistinctNonces(Without(s, nonce))
  {
    if s != [] {
      WithoutKeepsOrder(s[1..], nonce);
      WithoutMembers(s[1..], nonce);
      if s[0].nonce != nonce {
        assert Without(s, nonce)[1..] == Without(s[1..], nonce);
      } else {
        assert Without(s, nonce) == Without(s[1..], nonce);
      }
    }
  }

  lemma {:induction false} WithoutAbsent(s: seq<Seen>, nonce: int)
    requires forall x | x in s :: x.nonce != nonce
    ensures Without(s, nonce) == s
  {
    if s != [] {
      WithoutAbsent(s[1..], nonce);
    }
  }

  lemma {:induction false} WithoutLength(s: seq<Seen>, nonce: int)
    requires DistinctNonces(s)
    ensures |s| - 1 <= |Without(s, nonce)| <= |s|
  {
    if s != [] {
      if s[0].nonce == nonce {
        WithoutAbsent(s[1..], nonce);
      } else {
        WithoutLength(s[1..], nonce);
      }
    }
  }

  lemma {:induction false} AppendKeepsOrder(s: seq<Seen>, x: Seen)
    requires Sorted(s) && DistinctNonces(s)
    requires forall y | y in s :: y.at <= x.at && y.nonce != x.nonce
    ensures Sorted(s + [x]) && DistinctNonces(s + [x])
  {
    if s != [] {
      AppendKeepsOrder(s[1..], x);
      assert (s + [x])[1..] == s[1..] + [x];
    }
  }

  lemma NewestOfRest(s: seq<Seen>, max: nat)
    requires |s| > 0
    ensures Newest(s, max) == if |s| <= max then s else Newest(s[1..], max)
  {
  }

  /** On a sorted list the cut from the old end keeps exactly the newest `max` of the fresh entries. */
  lemma {:induction false} WindowIsNewestFresh(s: seq<Seen>, cutoff: int, max: nat)
    requires Sorted(s)
    ensures Window(s, cutoff, max) == Newest(Fresh(s, cutoff), max)
  {
    if s != [] {
      WindowIsNewestFresh(s[1..], cutoff, max);
      if s[0].at >= cutoff {
        FreshAll(s, cutoff);
        FreshAll(s[1..], cutoff);
        NewestOfRest(s, max);
      } else {
        assert Fresh(s, cutoff) == Fresh(s[1..], cutoff);
      }
    }
  }

  lemma {:induction false} FreshAll(s: seq<Seen>, cutoff: int)
    requires forall x | x in s :: x.at >= cutoff
    ensures Fresh(s, cutoff) == s
  {
    if s != [] {
      FreshAll(s[1..], cutoff);
    }
  }

  /** Cutting again with a later cutoff forgets the earlier cut. */
  lemma {:induction false} WindowTwice(s: seq<Seen>, c1: int, c2: int, max: nat)
    requires Sorted(s) && c1 <= c2
    ensures Window(Window(s, c1, max), c2, max) == Window(s, c2, max)
  {
    if s != [] && !(s[0].at >= c1 && |s| <= max) {
      WindowTwice(s[1..], c1, c2, max);
    }
  }

  lemma {:induction false} WindowIsSuffix(s: seq<Seen>, cutoff: int, max: nat) returns (d: nat)
    ensures d <= |s| && Window(s, cutoff, max) == s[d..]
  {
    if s == [] || (s[0].at >= cutoff && |s| <= max) {
      d := 0;
    } else {
      var rest := WindowIsSuffix(s[1..], cutoff, max);
      d := rest + 1;
    }
  }

  /** Deleting and re-adding a nonce in the cut list and cutting again is cutting what the full list becomes. */
  lemma {:induction false} WindowAdd(s: seq<Seen>, c1: int, c2: int, max: nat, x: Seen)
    requires Sorted(s) && DistinctNonces(s) && c1 <= c2
    requires forall y | y in s :: y.at <= x.at
    ensures Window(Without(Window(s, c1, max), x.nonce) + [x], c2, max) == Window(Without(s, x.nonce) + [x], c2, max)
  {
    if s != [] && !(s[0].at >= c1 && |s| <= max) {
      WindowAdd(s[1..], c1, c2, max, x);
      var rest := Without(s[1..], x.nonce) + [x];
      if s[0].nonce == x.nonce {
        assert Without(s, x.nonce) + [x] == rest;
      } else {
        assert Without(s, x.nonce) + [x] == [s[0]] + rest;
        assert ([s[0]] + rest)[1..] == rest;
        WithoutLength(s[1..], x.nonce);
      }
    }
  }

  lemma {:induction false} LatestIsSorted(uses: seq<Use>)
    requires Monotone(uses)
    ensures Sorted(Latest(uses)) && DistinctNonces(Latest(uses))
    ensures uses == [] ==> Latest(uses) == []
    ensures forall x | x in Latest(uses) :: uses != [] && x.at <= uses[|uses| - 1].at
  {
    if uses != [] {
      var before, last := uses[..|uses| - 1], uses[|uses| - 1];
      LatestIsSorted(before);
      if last.Add? {
        WithoutMembers(Latest(before), last.nonce);
        WithoutKeepsOrder(Latest(before), last.nonce);
        AppendKeepsOrder(Without(Latest(before), last.nonce), Seen(last.nonce, last.digest, last.at));
      }
    }
  }

  /**
   * The refinement: with a clock that never runs back, the cache after any run holds exactly the
   * newest `max` distinct nonces added within the time to live, each with the digest of its latest add.
   */
  lemma {:induction false} CacheRefinesSpecification(uses: seq<Use>, ttlMs: nat, max: nat)
    requires Monotone(uses) && uses != []
    ensures Cache(uses, ttlMs, max) == Newest(Fresh(Latest(uses), uses[|uses| - 1].at - ttlMs), max)
    ensures |Cache(uses, ttlMs, max)| <= max
  {
    CacheIsWindow(uses, ttlMs, max);
    LatestIsSorted(uses);
    WindowIsNewestFresh(Latest(uses), uses[|uses| - 1].at - ttlMs, max);
  }

  /** One more use of a cache that is the window of the full list leaves the window of what the full list becomes. */
  lemma UseKeepsWindow(full: seq<Seen>, c1: int, use: Use, ttlMs: nat, max: nat)
    requires Sorted(full) && DistinctNonces(full) && c1 <= use.at - ttlMs && (forall y | y in full :: y.at <= use.at)
    ensures var cut := Window(full, c1, max);
            match use
            case Get(at) => Window(cut, at - ttlMs, max) == Window(full, at - ttlMs, max)
            case Add(nonce, digest, at) =>
              Window(Without(cut, nonce) + [Seen(nonce, digest, at)], at - ttlMs, max)
                == Window(Without(full, nonce) + [Seen(nonce, digest, at)], at - ttlMs, max)
  {
    match use
    case Get(at) => WindowTwice(full, c1, at - ttlMs, max);
    case Add(nonce, digest, at) => WindowAdd(full, c1, at - ttlMs, max, Seen(nonce, digest, at));
  }

  lemma {:induction false} CacheIsWindow(uses: seq<Use>, ttlMs: nat, max: nat)
    requires Monotone(uses) && uses != []
    ensures Cache(uses, ttlMs, max) == Window(Latest(uses), uses[|uses| - 1].at - ttlMs, max)
  {
    var before, last := uses[..|uses| - 1], uses[|uses| - 1];
    LatestIsSorted(before);
    if before != [] {
      CacheIsWindow(before, ttlMs, max);
      UseKeepsWindow(Latest(before), before[|before| - 1].at - ttlMs, last, ttlMs, max);
    }
  }

  /** The latest add of a nonce in a run, if any. */
  function LastAdd(uses: seq<Use>, nonce: int): Option<Seen> {
    if uses == [] then None
    else
      var last := uses[|uses| - 1];
      if last.Add? && last.nonce == nonce then Some(Seen(nonce, last.digest, last.at))
      else LastAdd(uses[..|uses| - 1], nonce)
  }

  lemma {:induction false} LatestHoldsLastAdd(uses: seq<Use>, nonce: int, x: Seen)
    requires x.nonce == nonce
    ensures x in Latest(uses) <==> LastAdd(uses, nonce) == Some(x)
  {
    if uses != [] {
      var before, last := uses[..|uses| - 1], uses[|uses| - 1];
      LatestHoldsLastAdd(before, nonce, x);
      if last.Add? {
        WithoutMembers(Latest(before), last.nonce);
      }
    }
  }

  /**
   * What a reader gets: a nonce is found exactly when its latest add is within the time to live and
   * fewer than `max` other nonces were added after that add, and it is found with that add's digest.
   */
  lemma {:induction false} FoundExactlyWhenFreshAndRecent(uses: seq<Use>, ttlMs: nat, max: nat, nonce: int)
    requires Monotone(uses) && uses != []
    ensures var newest := Newest(Fresh(Latest(uses), uses[|uses| - 1].at - ttlMs), max);
            var found := Lookup(Cache(uses, ttlMs, max), nonce);
            && (found.Some? <==> exists x :: x in newest && x.nonce == nonce)
            && (found.Some? ==> LastAdd(uses, nonce).Some? && LastAdd(uses, nonce).value.digest == found.value)
  {
    CacheRefinesSpecification(uses, ttlMs, max);
    CacheIsWindow(uses, ttlMs, max);
    var cache := Cache(uses, ttlMs, max);
    LookupFinds(cache, nonce);
    var d := WindowIsSuffix(Latest(uses), uses[|uses| - 1].at - ttlMs, max);
    forall x | x in cache && x.nonce == nonce ensures LastAdd(uses, nonce) == Some(x) {
      assert x in Latest(uses);
      LatestHoldsLastAdd(uses, nonce, x);
    }
  }

  lemma {:induction false} LookupFinds(s: seq<Seen>, nonce: int)
    ensures Lookup(s, nonce).Some? <==> exists x :: x in s && x.nonce == nonce
    ensures Lookup(s, nonce).Some? ==> exists x :: x in s && x.nonce == nonce && x.digest == Lookup(s, nonce).value
  {
    if s != [] {
      LookupFinds(s[1..], nonce);
      assert forall x :: x in s <==> x == s[0] || x in s[1..];
    }
  }
}
