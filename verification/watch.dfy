/** Watch events, the filter a subscriber installs, and the bounded channel that carries its events. */
module Watch {
  import opened Wrappers

  /** `fromID` is the sender of the single row, `rowFromIDs` the senders of a batched delete. */
  datatype WatchEvent = WatchEvent(kind: string, fromID: int, rowFromIDs: seq<int>, payload: string)

  /** An empty set means "no restriction". */
  datatype WatchFilter = WatchFilter(kinds: set<string>, peerIDs: set<int>)

  predicate Matches(f: WatchFilter, ev: WatchEvent) {
    && (f.kinds == {} || ev.kind in f.kinds)
    && (f.peerIDs == {} ||
        if ev.rowFromIDs == [] then ev.fromID in f.peerIDs
        else exists i :: 0 <= i < |ev.rowFromIDs| && ev.rowFromIDs[i] in f.peerIDs)
  }

  /** The loop over a flag that the publisher runs, against the predicate. */
  method CheckMatches(f: WatchFilter, ev: WatchEvent) returns (ok: bool)
    ensures ok <==> Matches(f, ev)
  {
    if f.kinds != {} && ev.kind !in f.kinds {
      return false;
    }
    if f.peerIDs != {} {
      if |ev.rowFromIDs| > 0 {
        var matched := false;
        for i := 0 to |ev.rowFromIDs|
          invariant !matched
          invariant forall j :: 0 <= j < i ==> ev.rowFromIDs[j] !in f.peerIDs
        {
          if ev.rowFromIDs[i] in f.peerIDs {
            matched := true;
            break;
          }
        }
        if !matched {
          return false;
        }
      } else if ev.fromID !in f.peerIDs {
        return false;
      }
    }
    return true;
  }

  datatype FilterError = NoResolver | ResolveFailed(ref: string)

  /** What every reference resolves to; a missing key is a reference that cannot be resolved. */
  type Resolver = map<string, int>

  predicate Resolvable(refs: seq<string>, resolver: Option<Resolver>) {
    refs == [] || (resolver.Some? && forall i :: 0 <= i < |refs| ==> refs[i] in resolver.value)
  }

  /** The senders an event names: those of its rows when it is a batched delete, else its own. */
  predicate Names(ev: WatchEvent, id: int) {
    if ev.rowFromIDs == [] then ev.fromID == id else id in ev.rowFromIDs
  }

  /** The peers a request asks for, given as ids or through references. */
  predicate AskedPeer(peerIDs: seq<int>, refs: seq<string>, resolver: Option<Resolver>, id: int) {
    id in peerIDs
    || exists i :: 0 <= i < |refs| && resolver.Some? && refs[i] in resolver.value && resolver.value[refs[i]] == id
  }

  /** What a request means for one event: a wanted kind, and a wanted peer among the senders. */
  ghost predicate Wanted(
    kinds: seq<string>, peerIDs: seq<int>, refs: seq<string>, resolver: Option<Resolver>, ev: WatchEvent)
  {
    && (kinds == [] || ev.kind in kinds)
    && ((peerIDs == [] && refs == []) || exists id :: Names(ev, id) && AskedPeer(peerIDs, refs, resolver, id))
  }

  /** The filter a subscribe request asks for: given ids and resolved references together, or the first failure. */
  method BuildFilter(kinds: seq<string>, peerIDs: seq<int>, refs: seq<string>, resolver: Option<Resolver>)
    returns (r: Result<WatchFilter, FilterError>)
    ensures r.Ok? <==> Resolvable(refs, resolver)
    ensures r == Err(NoResolver) <==> refs != [] && resolver == None
    ensures r.Err? && r.error.ResolveFailed? ==> exists i ::
              && 0 <= i < |refs| && refs[i] == r.error.ref && resolver.Some? && refs[i] !in resolver.value
              && forall j :: 0 <= j < i ==> refs[j] in resolver.value
    ensures r.Ok? ==>
              && (forall k :: k in r.value.kinds <==> k in kinds)
              && (forall id :: id in r.value.peerIDs <==>
                    id in peerIDs || exists i :: 0 <= i < |refs| && resolver.value[refs[i]] == id)
    ensures r.Ok? ==> forall ev :: Matches(r.value, ev) <==> Wanted(kinds, peerIDs, refs, resolver, ev)
  {
    var f := WatchFilter({}, {});
    for i := 0 to |kinds|
      invariant f.peerIDs == {} && forall k :: k in f.kinds <==> k in kinds[..i]
    {
      f := f.(kinds := f.kinds + {kinds[i]});
    }
    for i := 0 to |peerIDs|
      invariant forall k :: k in f.kinds <==> k in kinds
      invariant forall id :: id in f.peerIDs <==> id in peerIDs[..i]
    {
      f := f.(peerIDs := f.peerIDs + {peerIDs[i]});
    }
    if |refs| > 0 {
      if resolver == None {
        return Err(NoResolver);
      }
      for i := 0 to |refs|
        invariant forall k :: k in f.kinds <==> k in kinds
        invariant forall j :: 0 <= j < i ==> refs[j] in resolver.value
        invariant forall id :: id in f.peerIDs <==>
                    id in peerIDs || exists j :: 0 <= j < i && resolver.value[refs[j]] == id
      {
        if refs[i] !in resolver.value {
          return Err(ResolveFailed(refs[i]));
        }
        f := f.(peerIDs := f.peerIDs + {resolver.value[refs[i]]});
      }
    }
    forall ev ensures Matches(f, ev) <==> Wanted(kinds, peerIDs, refs, resolver, ev) {
      MatchesWanted(f, kinds, peerIDs, refs, resolver, ev);
    }
    r := Ok(f);
  }

  lemma MatchesWanted(
    f: WatchFilter, kinds: seq<string>, peerIDs: seq<int>, refs: seq<string>, resolver: Option<Resolver>,
    ev: WatchEvent)
    requires forall k :: k in f.kinds <==> k in kinds
    requires forall id :: id in f.peerIDs <==> AskedPeer(peerIDs, refs, resolver, id)
    requires Resolvable(refs, resolver)
    ensures Matches(f, ev) <==> Wanted(kinds, peerIDs, refs, resolver, ev)
  {
    if kinds != [] { assert kinds[0] in f.kinds; }
    if peerIDs != [] { assert AskedPeer(peerIDs, refs, resolver, peerIDs[0]); }
    if refs != [] { assert AskedPeer(peerIDs, refs, resolver, resolver.value[refs[0]]); }
    if peerIDs == [] && refs == [] {
      forall id ensures id !in f.peerIDs { assert !AskedPeer(peerIDs, refs, resolver, id); }
    }
    if ev.rowFromIDs == [] {
      assert Names(ev, ev.fromID);
    } else {
      forall i | 0 <= i < |ev.rowFromIDs|
        ensures ev.rowFromIDs[i] in f.peerIDs <==> AskedPeer(peerIDs, refs, resolver, ev.rowFromIDs[i])
        ensures Names(ev, ev.rowFromIDs[i])
      {
      }
      if exists id :: Names(ev, id) && AskedPeer(peerIDs, refs, resolver, id) {
        var id :| Names(ev, id) && AskedPeer(peerIDs, refs, resolver, id);
        var i :| 0 <= i < |ev.rowFromIDs| && ev.rowFromIDs[i] == id;
      }
    }
  }

  /** The events of `evs` that `f` lets through, in order. */
  function Matching(f: WatchFilter, evs: seq<WatchEvent>): (r: seq<WatchEvent>)
    ensures |r| <= |evs|
  {
    if evs == [] then []
    else
      var front := Matching(f, evs[..|evs| - 1]);
      if Matches(f, evs[|evs| - 1]) then front + [evs[|evs| - 1]] else front
  }

  /** `a` can be obtained from `b` by deleting elements: order and multiplicity are kept. */
  predicate Subsequence<T(==)>(a: seq<T>, b: seq<T>) {
    if a == [] then true
    else if b == [] then false
    else if a[|a| - 1] == b[|b| - 1] && Subsequence(a[..|a| - 1], b[..|b| - 1]) then true
    else Subsequence(a, b[..|b| - 1])
  }

  lemma SubsequenceTake<T>(a: seq<T>, b: seq<T>, x: T)
    requires Subsequence(a, b)
    ensures Subsequence(a + [x], b + [x])
  {
    assert (a + [x])[..|a|] == a;
    assert (b + [x])[..|b|] == b;
  }

  lemma SubsequenceSkip<T>(a: seq<T>, b: seq<T>, x: T)
    requires Subsequence(a, b)
    ensures Subsequence(a, b + [x])
  {
    assert (b + [x])[..|b|] == b;
  }

  /** What the inductive definition means: some strictly increasing choice of positions of `b` spells `a`. */
  lemma {:induction false} SubsequencePositions<T>(a: seq<T>, b: seq<T>) returns (at: seq<nat>)
    requires Subsequence(a, b)
    ensures |at| == |a|
    ensures forall i :: 0 <= i < |at| ==> at[i] < |b| && b[at[i]] == a[i]
    ensures forall i, j :: 0 <= i < j < |at| ==> at[i] < at[j]
    decreases |b|
  {
    if a == [] {
      at := [];
    } else if a[|a| - 1] == b[|b| - 1] && Subsequence(a[..|a| - 1], b[..|b| - 1]) {
      var front := SubsequencePositions(a[..|a| - 1], b[..|b| - 1]);
      at := front + [|b| - 1];
    } else {
      at := SubsequencePositions(a, b[..|b| - 1]);
    }
  }

  /** A Go channel with a buffer, plus the counter of events that found it full. */
  datatype Channel = Channel(buf: seq<WatchEvent>, closed: bool, dropped: nat)

  /** The non-blocking send: enqueue, or count one drop. One atomic step. */
  function Offer(c: Channel, capacity: nat, ev: WatchEvent): (c': Channel)
    ensures |c.buf| <= capacity ==> |c'.buf| <= capacity
    ensures |c'.buf| + c'.dropped == |c.buf| + c.dropped + 1
    ensures c.buf <= c'.buf && c'.closed == c.closed
  {
    if |c.buf| < capacity then c.(buf := c.buf + [ev]) else c.(dropped := c.dropped + 1)
  }
}
