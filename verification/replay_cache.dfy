/** The policy signer's replay cache, checked against its whole call history. */
module ReplayCache {
  const REPLAY_TTL_MS := 60_000

  datatype Call = Call(nonce: string, now: int)

  function Purge(cache: map<string, int>, now: int): map<string, int> {
    map n | n in cache && cache[n] > now :: cache[n]
  }

  function Accept(cache: map<string, int>, call: Call): map<string, int> {
    var purged := Purge(cache, call.now);
    if call.nonce in purged then purged else purged[call.nonce := call.now + REPLAY_TTL_MS]
  }

  /** The cache after the first k calls. */
  function CacheAfter(calls: seq<Call>, k: nat): map<string, int>
    requires k <= |calls|
  {
    if k == 0 then map[] else Accept(CacheAfter(calls, k - 1), calls[k - 1])
  }

  /** Whether call i returned normally instead of throwing SIGNER_AUTH_REPLAYED. */
  predicate Accepted(calls: seq<Call>, i: nat)
    requires i < |calls|
  {
    calls[i].nonce !in Purge(CacheAfter(calls, i), calls[i].now)
  }

  /** Call j was accepted, and no later call up to the k-th came at or after its expiry. */
  ghost predicate Kept(calls: seq<Call>, j: nat, k: nat)
    requires j < k <= |calls|
  {
    Accepted(calls, j) && forall m | j < m < k :: calls[m].now < calls[j].now + 60_000
  }

  predicate Lists(cache: map<string, int>, call: Call) {
    call.nonce in cache && cache[call.nonce] == call.now + 60_000
  }

  /** Some call kept up to the k-th accounts for a cache entry. */
  ghost predicate Witnessed(calls: seq<Call>, k: nat, n: string, expiry: int)
    requires k <= |calls|
  {
    exists j :: 0 <= j < k && Kept(calls, j, k) && calls[j].nonce == n && expiry == calls[j].now + 60_000
  }

  // ---- For any clock whatsoever ----

  lemma KeptOneCallMore(calls: seq<Call>, j: nat, k: nat)
    requires j < k < |calls|
    ensures Kept(calls, j, k + 1) <==> Kept(calls, j, k) && calls[k].now < calls[j].now + 60_000
  {
  }

  lemma WitnessOutlivesCall(calls: seq<Call>, k: nat, n: string, expiry: int)
    requires k < |calls| && Witnessed(calls, k, n, expiry) && expiry > calls[k].now
    ensures Witnessed(calls, k + 1, n, expiry)
    ensures exists j :: 0 <= j < k && Kept(calls, j, k + 1) && calls[j].nonce == n
  {
    var j :| 0 <= j < k && Kept(calls, j, k) && calls[j].nonce == n && expiry == calls[j].now + 60_000;
    KeptOneCallMore(calls, j, k);
  }

  lemma AcceptKeepsListed(cache: map<string, int>, call: Call, earlier: Call)
    requires Lists(cache, earlier) && call.now < earlier.now + 60_000
    ensures Lists(Accept(cache, call), earlier)
  {
  }

  lemma AcceptListsCall(cache: map<string, int>, call: Call)
    requires call.nonce !in Purge(cache, call.now)
    ensures Lists(Accept(cache, call), call)
  {
  }

  /** Every kept call is in the cache with its expiry. */
  lemma {:induction false} KeptIsListed(calls: seq<Call>, j: nat, k: nat)
    requires j < k <= |calls| && Kept(calls, j, k)
    ensures Lists(CacheAfter(calls, k), calls[j])
    decreases k
  {
    if k == j + 1 {
      AcceptListsCall(CacheAfter(calls, j), calls[j]);
    } else {
      KeptOneCallMore(calls, j, k - 1);
      KeptIsListed(calls, j, k - 1);
      AcceptKeepsListed(CacheAfter(calls, k - 1), calls[k - 1], calls[j]);
    }
  }

  /** Every cache entry is that of a kept call. */
  lemma {:induction false} EntryIsKept(calls: seq<Call>, k: nat, n: string)
    requires k <= |calls| && n in CacheAfter(calls, k)
    ensures Witnessed(calls, k, n, CacheAfter(calls, k)[n])
  {
    if k > 0 {
      var cache := CacheAfter(calls, k - 1);
      if n in Purge(cache, calls[k - 1].now) {
        EntryIsKept(calls, k - 1, n);
        WitnessOutlivesCall(calls, k - 1, n, cache[n]);
      } else {
        assert Kept(calls, k - 1, k) && calls[k - 1].nonce == n;
      }
    }
  }

  /** A nonce is refused exactly when it was accepted before and every call since, this one
      included, came before its expiry. */
  lemma RefusedExactly(calls: seq<Call>, i: nat)
    requires i < |calls|
    ensures !Accepted(calls, i) <==> exists j :: 0 <= j < i && Kept(calls, j, i + 1) && calls[j].nonce == calls[i].nonce
  {
    var n, cache := calls[i].nonce, CacheAfter(calls, i);
    if n in Purge(cache, calls[i].now) {
      EntryIsKept(calls, i, n);
      WitnessOutlivesCall(calls, i, n, cache[n]);
    }
    if j :| 0 <= j < i && Kept(calls, j, i + 1) && calls[j].nonce == n {
      KeptOneCallMore(calls, j, i);
      KeptIsListed(calls, j, i);
    }
  }

  // ---- With a clock that never runs backwards ----

  ghost predicate Clocked(calls: seq<Call>) {
    forall i, j | 0 <= i <= j < |calls| :: calls[i].now <= calls[j].now
  }

  lemma KeptIsWithinWindow(calls: seq<Call>, j: nat, i: nat)
    requires Clocked(calls) && j <= i < |calls|
    ensures Kept(calls, j, i + 1) <==> Accepted(calls, j) && calls[i].now - calls[j].now < 60_000
  {
    if Kept(calls, j, i + 1) && j < i {
      assert calls[i].now < calls[j].now + 60_000;
    }
  }

  /** After each call the cache holds exactly the nonces accepted in the last 60 000 ms, with
      their expiries. */
  lemma CacheIsWindow(calls: seq<Call>, i: nat, n: string, expiry: int)
    requires Clocked(calls) && i < |calls|
    ensures n in CacheAfter(calls, i + 1) && CacheAfter(calls, i + 1)[n] == expiry <==>
            exists j :: 0 <= j <= i && Accepted(calls, j) && calls[j].nonce == n
                        && calls[i].now - calls[j].now < 60_000 && expiry == calls[j].now + 60_000
  {
    var cache := CacheAfter(calls, i + 1);
    if n in cache && cache[n] == expiry {
      EntryIsKept(calls, i + 1, n);
      var j :| 0 <= j < i + 1 && Kept(calls, j, i + 1) && calls[j].nonce == n && expiry == calls[j].now + 60_000;
      KeptIsWithinWindow(calls, j, i);
    }
    if j :| 0 <= j <= i && Accepted(calls, j) && calls[j].nonce == n
            && calls[i].now - calls[j].now < 60_000 && expiry == calls[j].now + 60_000 {
      KeptIsWithinWindow(calls, j, i);
      KeptIsListed(calls, j, i + 1);
    }
  }

  /** A nonce is refused exactly when it was accepted within the preceding 60 000 ms. */
  lemma RefusedExactlyWithinWindow(calls: seq<Call>, i: nat)
    requires Clocked(calls) && i < |calls|
    ensures !Accepted(calls, i) <==>
            exists j :: 0 <= j < i && Accepted(calls, j) && calls[j].nonce == calls[i].nonce
                        && calls[i].now - calls[j].now < 60_000
  {
    RefusedExactly(calls, i);
    forall j | 0 <= j < i
      ensures Kept(calls, j, i + 1) <==> Accepted(calls, j) && calls[i].now - calls[j].now < 60_000
    {
      KeptIsWithinWindow(calls, j, i);
    }
  }

  lemma AcceptancesFarApart(calls: seq<Call>, j: nat, i: nat)
    requires Clocked(calls) && j < i < |calls|
    requires Accepted(calls, j) && Accepted(calls, i) && calls[j].nonce == calls[i].nonce
    ensures calls[i].now - calls[j].now >= 60_000
  {
    RefusedExactlyWithinWindow(calls, i);
  }

  /** With a clock that runs backwards two acceptances can be one millisecond apart: a call at a
      later time has outlived the first. */
  lemma BackwardClockReplays()
    ensures var calls := [Call("n", 0), Call("m", 60_000), Call("n", 1)];
            Accepted(calls, 0) && Accepted(calls, 2)
  {
    var calls := [Call("n", 0), Call("m", 60_000), Call("n", 1)];
    RefusedExactly(calls, 0);
    RefusedExactly(calls, 2);
    assert calls[1].now >= calls[0].now + 60_000;
  }

  // ---- The signer ----

  lemma {:induction false} CacheOfPrefix(calls: seq<Call>, more: seq<Call>, k: nat)
    requires k <= |calls|
    ensures CacheAfter(calls + more, k) == CacheAfter(calls, k)
  {
    if k > 0 {
      CacheOfPrefix(calls, more, k - 1);
    }
  }

  /** The cache as the process holds it: a map purged and written in place. */
  class Signer {
    var nonces: map<string, int>
    ghost var history: seq<Call>

    ghost predicate Valid()
      reads this
    {
      nonces == CacheAfter(history, |history|)
    }

    constructor ()
      ensures Valid() && history == []
    {
      nonces := map[];
      history := [];
    }

    /** Deletes every expired entry, one at a time, in whatever order they are visited. */
    method DeleteExpired(now: int)
      modifies this`nonces
      ensures nonces == Purge(old(nonces), now)
    {
      var unvisited := nonces.Keys;
      while unvisited != {}
        invariant unvisited <= nonces.Keys <= old(nonces).Keys
        invariant forall n | n in nonces :: nonces[n] == old(nonces)[n]
        invariant forall n | n in old(nonces) && n !in unvisited :: n in nonces <==> old(nonces)[n] > now
        decreases unvisited
      {
        var value :| value in unvisited;
        if nonces[value] <= now {
          nonces := nonces - {value};
        }
        unvisited := unvisited - {value};
      }
    }

    method AcceptNonce(nonce: string, now: int) returns (accepted: bool)
      requires Valid()
      modifies this
      ensures Valid() && history == old(history) + [Call(nonce, now)]
      ensures accepted == Accepted(history, |old(history)|)
      ensures !accepted <==> exists j :: 0 <= j < |old(history)| && Kept(history, j, |history|) && history[j].nonce == nonce
    {
      history := history + [Call(nonce, now)];
      CacheOfPrefix(old(history), [Call(nonce, now)], |old(history)|);
      DeleteExpired(now);
      accepted := nonce !in nonces;
      if accepted {
        nonces := nonces[nonce := now + REPLAY_TTL_MS];
      }
      RefusedExactly(history, |old(history)|);
    }
  }
}
