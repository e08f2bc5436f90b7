/**
 The leader's cache of prepared nonces (signer/cosigner_nonce_cache.go): loaded in batches,
 handed out once, thinned when a cosigner goes away, pruned from the front.
 */
module NonceCache {
  import opened Wrappers
  import opened NonceStore

  /** One cosigner's nonces, for all the others. */
  datatype Rel = Rel(cosigner: int, nonces: seq<CosignerNonce>)

  datatype CachedNonce = CachedNonce(uuid: nat, expiration: int, nonces: seq<Rel>)

  datatype UUIDNonces = UUIDNonces(uuid: nat, nonces: seq<CosignerNonce>)

  // ---------------------------------------------------------------- specification

  /** Where the cosigner's nonces are among those from j on, if anywhere: the first such place. */
  function Find(rels: seq<Rel>, id: int, j: nat): (k: Option<nat>)
    requires j <= |rels|
    ensures k.Some? ==> j <= k.value < |rels| && rels[k.value].cosigner == id
    ensures k.Some? ==> forall i :: j <= i < k.value ==> rels[i].cosigner != id
    ensures k.None? ==> forall i :: j <= i < |rels| ==> rels[i].cosigner != id
    decreases |rels| - j
  {
    if j == |rels| then None
    else if rels[j].cosigner == id then Some(j)
    else Find(rels, id, j + 1)
  }

  predicate Covers(cn: CachedNonce, peers: seq<int>) {
    forall p :: 0 <= p < |peers| ==> Find(cn.nonces, peers[p], 0).Some?
  }

  /** The nonces of the first p peers, in the order the peers were named. */
  function Gathered(cn: CachedNonce, peers: seq<int>, p: nat): seq<CosignerNonce>
    requires p <= |peers| && Covers(cn, peers)
  {
    if p == 0 then []
    else Gathered(cn, peers, p - 1) + cn.nonces[Find(cn.nonces, peers[p - 1], 0).value].nonces
  }

  /** The first entry from i on that covers all peers, or the length of the cache. */
  function FirstCovering(cache: seq<CachedNonce>, peers: seq<int>, i: nat): (k: nat)
    requires i <= |cache|
    ensures i <= k <= |cache|
    ensures forall j :: i <= j < k ==> !Covers(cache[j], peers)
    ensures k < |cache| ==> Covers(cache[k], peers)
    decreases |cache| - i
  {
    if i == |cache| || Covers(cache[i], peers) then i else FirstCovering(cache, peers, i + 1)
  }

  function Removed<T>(s: seq<T>, i: nat): (r: seq<T>)
    requires i < |s|
    ensures |r| == |s| - 1
    ensures forall k :: 0 <= k < |r| ==> r[k] == if k < i then s[k] else s[k + 1]
  {
    s[..i] + s[i + 1..]
  }

  /** An entry after the cosigner is gone: untouched, thinned, or dropped below threshold. */
  function Thinned(cn: CachedNonce, id: int, threshold: nat): Option<CachedNonce> {
    match Find(cn.nonces, id, 0)
    case None => Some(cn)
    case Some(j) =>
      if |cn.nonces| - 1 < threshold then None else Some(cn.(nonces := Removed(cn.nonces, j)))
  }

  /** What remains of the first n entries, in order. */
  function Cleared(cache: seq<CachedNonce>, id: int, threshold: nat, n: nat): seq<CachedNonce>
    requires n <= |cache|
  {
    if n == 0 then []
    else
      match Thinned(cache[n - 1], id, threshold)
      case None => Cleared(cache, id, threshold, n - 1)
      case Some(cn) => Cleared(cache, id, threshold, n - 1) + [cn]
  }

  /** The first entry from i on whose expiration is after the clock's reading for it. */
  function FirstLive(cache: seq<CachedNonce>, clock: nat -> int, i: nat): (k: nat)
    requires i <= |cache|
    ensures i <= k <= |cache|
    ensures forall j :: i <= j < k ==> cache[j].expiration <= clock(j)
    ensures k < |cache| ==> clock(k) < cache[k].expiration
    decreases |cache| - i
  {
    if i == |cache| || clock(i) < cache[i].expiration then i else FirstLive(cache, clock, i + 1)
  }

  /** The entries among the first n that are live now. */
  function Live(cache: seq<CachedNonce>, now: int, n: nat): seq<CachedNonce>
    requires n <= |cache|
  {
    if n == 0 then []
    else if now < cache[n - 1].expiration then Live(cache, now, n - 1) + [cache[n - 1]]
    else Live(cache, now, n - 1)
  }

  ghost predicate Ordered(cache: seq<CachedNonce>) {
    forall i, j :: 0 <= i < j < |cache| ==> cache[i].expiration <= cache[j].expiration
  }

  /** What one cosigner answered: its nonces for every requested UUID. */
  datatype Answer = Answer(cosigner: int, nonces: seq<seq<CosignerNonce>>)

  /** Every answer covers all the UUIDs asked for. */
  ghost predicate Answered(answers: seq<Option<Answer>>, n: nat) {
    forall a :: 0 <= a < |answers| && answers[a].Some? ==> |answers[a].value.nonces| >= n
  }

  /** The answers of the first m cosigners for UUID number i. */
  function RelsOf(answers: seq<Option<Answer>>, i: nat, m: nat): (rels: seq<Rel>)
    requires m <= |answers| && Answered(answers, i + 1)
    ensures |rels| <= m
  {
    if m == 0 then []
    else if answers[m - 1].None? then RelsOf(answers, i, m - 1)
    else RelsOf(answers, i, m - 1) + [Rel(answers[m - 1].value.cosigner, answers[m - 1].value.nonces[i])]
  }

  /** The entries for the first n UUIDs; the count of answers is a uint8. */
  function NewEntries(uuids: seq<nat>, expiration: int, answers: seq<Option<Answer>>, threshold: nat, n: nat): seq<CachedNonce>
    requires n <= |uuids| && Answered(answers, n)
  {
    if n == 0 then []
    else
      var rels := RelsOf(answers, n - 1, |answers|);
      var rest := NewEntries(uuids, expiration, answers, threshold, n - 1);
      if |rels| % 256 >= threshold then rest + [CachedNonce(uuids[n - 1], expiration, rels)] else rest
  }

  // ---------------------------------------------------------------- the object

  class Cache {
    const threshold: nat
    var cache: seq<CachedNonce>

    constructor (threshold: nat)
      ensures this.threshold == threshold && cache == []
    {
      this.threshold, cache := threshold, [];
    }

    /** An entry that does not expire before the others goes last and keeps the cache ordered. */
    method Add(cn: CachedNonce)
      modifies this`cache
      ensures cache == old(cache) + [cn]
      ensures Ordered(old(cache)) && (forall i :: 0 <= i < |old(cache)| ==> old(cache)[i].expiration <= cn.expiration) ==>
        Ordered(cache)
    {
      cache := cache + [cn];
    }

    method Delete(index: nat)
      requires index < |cache|
      modifies this`cache
      ensures cache == Removed(old(cache), index)
    {
      cache := cache[..index] + cache[index + 1..];
    }

    /** Drops everything before the first live entry; the clock is read again for every entry. */
    method PruneNonces(clock: nat -> int) returns (deleteCount: nat)
      modifies this`cache
      ensures deleteCount == FirstLive(old(cache), clock, 0)
      ensures cache == old(cache)[deleteCount..]
    {
      var nonExpiredIndex := -1;
      var i := 0;
      while i < |cache|
        invariant 0 <= i <= |cache| && nonExpiredIndex == -1
        invariant FirstLive(cache, clock, 0) == FirstLive(cache, clock, i)
      {
        if clock(i) < cache[i].expiration {
          nonExpiredIndex := i;
          break;
        }
        i := i + 1;
      }
      if nonExpiredIndex == -1 {
        deleteCount := |cache|;
        cache := [];
      } else {
        deleteCount := nonExpiredIndex;
        cache := cache[nonExpiredIndex..];
      }
    }

    /** The first entry that covers all peers leaves the cache with its nonces. */
    method GetNonces(peers: seq<int>) returns (r: Option<UUIDNonces>)
      modifies this`cache
      ensures var i := FirstCovering(old(cache), peers, 0);
        if i == |old(cache)| then r == None && cache == old(cache)
        else
          && cache == Removed(old(cache), i)
          && r == Some(UUIDNonces(old(cache)[i].uuid, Gathered(old(cache)[i], peers, |peers|)))
    {
      for i := 0 to |cache|
        invariant cache == old(cache)
        invariant FirstCovering(cache, peers, 0) == FirstCovering(cache, peers, i)
      {
        var cn := cache[i];
        var covered, nonces := Collect(cn, peers);
        if covered {
          Delete(i);
          return Some(UUIDNonces(cn.uuid, nonces));
        }
      }
      return None;
    }

    /** LoadN after the answers are in: one entry per UUID that enough cosigners answered for. */
    method LoadN(uuids: seq<nat>, expiration: int, answers: seq<Option<Answer>>)
      requires Answered(answers, |uuids|)
      modifies this`cache
      ensures cache == old(cache) + NewEntries(uuids, expiration, answers, threshold, |uuids|)
    {
      ghost var before := cache;
      for i := 0 to |uuids|
        invariant cache == before + NewEntries(uuids, expiration, answers, threshold, i)
      {
        var rels := [];
        var num := 0;
        for a := 0 to |answers|
          invariant rels == RelsOf(answers, i, a) && num == |rels| % 256
        {
          if answers[a].Some? {
            num := (num + 1) % 256;
            rels := rels + [Rel(answers[a].value.cosigner, answers[a].value.nonces[i])];
          }
        }
        if num >= threshold {
          Add(CachedNonce(uuids[i], expiration, rels));
        }
      }
    }

    /** The inner loops: every peer's nonces, or the first peer that is missing ends the search. */
    method Collect(cn: CachedNonce, peers: seq<int>) returns (covered: bool, nonces: seq<CosignerNonce>)
      ensures covered <==> Covers(cn, peers)
      ensures covered ==> nonces == Gathered(cn, peers, |peers|)
    {
      nonces := [];
      for p := 0 to |peers|
        invariant forall q :: 0 <= q < p ==> Find(cn.nonces, peers[q], 0).Some?
        invariant Covers(cn, peers) ==> nonces == Gathered(cn, peers, p)
      {
        var found := false;
        var j := 0;
        while j < |cn.nonces|
          invariant 0 <= j <= |cn.nonces| && !found
          invariant Find(cn.nonces, peers[p], 0) == Find(cn.nonces, peers[p], j)
          invariant Covers(cn, peers) ==> nonces == Gathered(cn, peers, p)
        {
          if cn.nonces[j].cosigner == peers[p] {
            found := true;
            nonces := nonces + cn.nonces[j].nonces;
            break;
          }
          j := j + 1;
        }
        if !found {
          return false, nonces;
        }
      }
      return true, nonces;
    }

    /** Forgets a cosigner, in place: entries are thinned or deleted while the index moves on. */
    method ClearNonces(id: int)
      modifies this`cache
      ensures cache == Cleared(old(cache), id, threshold, |old(cache)|)
    {
      ghost var before := cache;
      ghost var done := 0;
      var i := 0;
      while i < |cache|
        invariant 0 <= i <= |cache| && done <= |before| && |cache| - i == |before| - done
        invariant cache[..i] == Cleared(before, id, threshold, done)
        invariant cache[i..] == before[done..]
        decreases |before| - done
      {
        var cn := cache[i];
        assert cn == cache[i..][0] == before[done..][0] == before[done];
        assert cache[i + 1..] == cache[i..][1..] == before[done..][1..] == before[done + 1..];
        var deleteID := -1;
        var j := 0;
        while j < |cn.nonces|
          invariant 0 <= j <= |cn.nonces| && deleteID == -1
          invariant Find(cn.nonces, id, 0) == Find(cn.nonces, id, j)
        {
          if cn.nonces[j].cosigner == id {
            deleteID := j;
            break;
          }
          j := j + 1;
        }
        ghost var was := cache;
        if deleteID >= 0 {
          if |cn.nonces| - 1 < threshold {
            Delete(i);
            assert cache[..i] == was[..i] && cache[i..] == was[i + 1..];
            i := i - 1;
          } else {
            cache := cache[i := cn.(nonces := cn.nonces[..deleteID] + cn.nonces[deleteID + 1..])];
            assert cache[..i + 1] == was[..i] + [cache[i]] && cache[i + 1..] == was[i + 1..];
          }
        } else {
          assert cache[..i + 1] == was[..i] + [cn];
        }
        i := i + 1;
        done := done + 1;
      }
      assert cache == cache[..i];
    }
  }

  // ---------------------------------------------------------------- pruning

  lemma {:induction false} LivePrefix(cache: seq<CachedNonce>, now: int, k: nat, n: nat)
    requires k <= n <= |cache|
    requires forall i :: 0 <= i < k ==> cache[i].expiration <= now
    requires forall i :: k <= i < n ==> now < cache[i].expiration
    ensures Live(cache, now, n) == cache[k..n]
  {
    if n > k {
      LivePrefix(cache, now, k, n - 1);
      assert cache[k..n] == cache[k..n - 1] + [cache[n - 1]];
    } else if n > 0 {
      LivePrefix(cache, now, k - 1, n - 1);
      assert cache[k - 1..n - 1] == [];
    }
  }

  lemma {:induction false} LiveAreLive(cache: seq<CachedNonce>, now: int, n: nat)
    requires n <= |cache|
    ensures forall i :: 0 <= i < |Live(cache, now, n)| ==> now < Live(cache, now, n)[i].expiration
  {
    if n > 0 {
      LiveAreLive(cache, now, n - 1);
    }
  }

  /** No expired entry stands behind a live one. */
  ghost predicate ExpiredFirst(cache: seq<CachedNonce>, now: int) {
    forall i, j :: 0 <= i < j < |cache| && cache[j].expiration <= now ==> cache[i].expiration <= now
  }

  /** The first live entry is the border between expired and live. */
  lemma {:induction false} Border(cache: seq<CachedNonce>, clock: nat -> int, now: int, i: nat)
    requires (forall k :: clock(k) == now) && ExpiredFirst(cache, now) && i < |cache|
    ensures i < FirstLive(cache, clock, 0) <==> cache[i].expiration <= now
  {
    var k := FirstLive(cache, clock, 0);
    if i < k {
      assert cache[i].expiration <= clock(i);
    } else {
      assert now == clock(k) < cache[k].expiration;
    }
  }

  lemma {:induction false} LateExpiry(cache: seq<CachedNonce>, now: int, k: nat, i: nat, j: nat)
    requires i < j < |cache| && cache[j].expiration <= now < cache[i].expiration
    requires k <= |cache| && (forall m :: 0 <= m < k ==> cache[m].expiration <= now)
    ensures cache[k..] != Live(cache, now, |cache|)
  {
    LiveAreLive(cache, now, |cache|);
    assert k <= i;
    assert cache[k..][j - k] == cache[j];
  }

  /** Read at one instant, pruning drops exactly the expired entries if and only if they all stand in front. */
  lemma {:induction false} PruneDropsExpired(cache: seq<CachedNonce>, clock: nat -> int, now: int)
    requires forall i :: clock(i) == now
    ensures cache[FirstLive(cache, clock, 0)..] == Live(cache, now, |cache|) <==> ExpiredFirst(cache, now)
  {
    var k := FirstLive(cache, clock, 0);
    if ExpiredFirst(cache, now) {
      forall i | 0 <= i < |cache| ensures i < k <==> cache[i].expiration <= now {
        Border(cache, clock, now, i);
      }
      LivePrefix(cache, now, k, |cache|);
      assert cache[k..] == cache[k..|cache|];
    } else {
      var i, j :| 0 <= i < j < |cache| && cache[j].expiration <= now && now < cache[i].expiration;
      LateExpiry(cache, now, k, i, j);
    }
  }

  /** Non-decreasing expirations are enough. */
  lemma {:induction false} OrderedMeansExpiredFirst(cache: seq<CachedNonce>, clock: nat -> int, now: int)
    requires Ordered(cache) && forall i :: clock(i) == now
    ensures cache[FirstLive(cache, clock, 0)..] == Live(cache, now, |cache|)
  {
    PruneDropsExpired(cache, clock, now);
  }

  // ---------------------------------------------------------------- what a load adds

  /** How many of the first m cosigners answered. */
  function Count(answers: seq<Option<Answer>>, m: nat): (c: nat)
    requires m <= |answers|
    ensures c <= m
  {
    if m == 0 then 0 else Count(answers, m - 1) + if answers[m - 1].Some? then 1 else 0
  }

  /**
   The entry for UUID number i: under that UUID, one record per cosigner that answered, in order,
   each holding what this cosigner answered for this UUID.
   */
  ghost predicate HoldsAnswers(e: CachedNonce, uuid: nat, expiration: int, answers: seq<Option<Answer>>, i: nat)
    requires Answered(answers, i + 1)
  {
    && e.uuid == uuid && e.expiration == expiration && |e.nonces| == Count(answers, |answers|)
    && RecordsOf(e.nonces, answers, i, |answers|)
  }

  ghost predicate RecordsOf(rels: seq<Rel>, answers: seq<Option<Answer>>, i: nat, m: nat)
    requires m <= |answers| && Answered(answers, i + 1)
  {
    && |rels| == Count(answers, m)
    && forall a :: 0 <= a < m && answers[a].Some? ==>
         Count(answers, a) < |rels| && rels[Count(answers, a)] == Rel(answers[a].value.cosigner, answers[a].value.nonces[i])
  }

  lemma {:induction false} RelsAreRecords(answers: seq<Option<Answer>>, i: nat, m: nat)
    requires m <= |answers| && Answered(answers, i + 1)
    ensures RecordsOf(RelsOf(answers, i, m), answers, i, m)
  {
    if m > 0 {
      RelsAreRecords(answers, i, m - 1);
    }
  }

  /**
   A load is all or nothing: if enough cosigners answered, counted in a uint8, there is one entry
   for every UUID, in order, and each holds the answers for its own UUID.
   */
  lemma {:induction false} LoadedEntries(uuids: seq<nat>, expiration: int, answers: seq<Option<Answer>>, threshold: nat, n: nat)
    requires n <= |uuids| && Answered(answers, n)
    ensures var es := NewEntries(uuids, expiration, answers, threshold, n);
      if Count(answers, |answers|) % 256 >= threshold
      then |es| == n && forall i :: 0 <= i < n ==> HoldsAnswers(es[i], uuids[i], expiration, answers, i)
      else es == []
  {
    if n > 0 {
      LoadedEntries(uuids, expiration, answers, threshold, n - 1);
      RelsAreRecords(answers, n - 1, |answers|);
    }
  }

  /** Every record of the entry is somebody's answer for its UUID. */
  lemma {:induction false} RecordIsAnswer(answers: seq<Option<Answer>>, i: nat, m: nat, k: nat) returns (a: nat)
    requires m <= |answers| && Answered(answers, i + 1) && k < Count(answers, m)
    ensures a < m && answers[a].Some? && Count(answers, a) == k
  {
    if answers[m - 1].Some? && k == Count(answers, m - 1) {
      a := m - 1;
    } else {
      a := RecordIsAnswer(answers, i, m - 1, k);
    }
  }

  // ---------------------------------------------------------------- runs

  /** The cache, every UUID that was ever drawn, and every UUID that was handed out. */
  datatype State = State(cache: seq<CachedNonce>, drawn: set<nat>, handed: seq<nat>)

  datatype Event =
    | Add(entry: CachedNonce)
    | Get(peers: seq<int>)
    | Clear(id: int)
    | Prune(clock: nat -> int)

  ghost predicate DistinctCosigners(rels: seq<Rel>) {
    forall i, j :: 0 <= i < j < |rels| ==> rels[i].cosigner != rels[j].cosigner
  }

  /**
   What a load adds, one entry at a time: a UUID that is random and so different from all before,
   an expiration that is not earlier than those before, enough different cosigners.
   */
  ghost predicate Addable(s: State, cn: CachedNonce, threshold: nat) {
    && cn.uuid !in s.drawn && |cn.nonces| >= threshold && DistinctCosigners(cn.nonces)
    && forall i :: 0 <= i < |s.cache| ==> s.cache[i].expiration <= cn.expiration
  }

  ghost function Apply(s: State, e: Event, threshold: nat): State {
    match e
    case Add(cn) =>
      if Addable(s, cn, threshold) then State(s.cache + [cn], s.drawn + {cn.uuid}, s.handed) else s
    case Get(peers) =>
      var i := FirstCovering(s.cache, peers, 0);
      if i == |s.cache| then s else s.(cache := Removed(s.cache, i), handed := s.handed + [s.cache[i].uuid])
    case Clear(id) => s.(cache := Cleared(s.cache, id, threshold, |s.cache|))
    case Prune(clock) => s.(cache := s.cache[FirstLive(s.cache, clock, 0)..])
  }

  ghost predicate Valid(s: State, threshold: nat) {
    && (forall i, j :: 0 <= i < j < |s.cache| ==> s.cache[i].uuid != s.cache[j].uuid)
    && (forall i :: 0 <= i < |s.cache| ==>
          && s.cache[i].uuid in s.drawn && s.cache[i].uuid !in s.handed
          && |s.cache[i].nonces| >= threshold && DistinctCosigners(s.cache[i].nonces))
    && (forall i :: 0 <= i < |s.handed| ==> s.handed[i] in s.drawn)
    && (forall i, j :: 0 <= i < j < |s.handed| ==> s.handed[i] != s.handed[j])
    && Ordered(s.cache)
  }

  /** Peers have distinct IDs. */
  ghost predicate DistinctAnswers(answers: seq<Option<Answer>>) {
    forall a, b :: 0 <= a < b < |answers| && answers[a].Some? && answers[b].Some? ==>
      answers[a].value.cosigner != answers[b].value.cosigner
  }

  lemma {:induction false} CountOrder(answers: seq<Option<Answer>>, a: nat, b: nat)
    requires a < b <= |answers|
    ensures Count(answers, a) <= Count(answers, b)
    ensures answers[a].Some? ==> Count(answers, a) < Count(answers, b)
  {
    if a < b - 1 {
      CountOrder(answers, a, b - 1);
    }
  }

  /** An entry of a load has enough different cosigners, as an addition asks. */
  lemma {:induction false} LoadedFits(e: CachedNonce, uuid: nat, expiration: int, answers: seq<Option<Answer>>, i: nat, threshold: nat)
    requires Answered(answers, i + 1) && HoldsAnswers(e, uuid, expiration, answers, i)
    requires DistinctAnswers(answers) && Count(answers, |answers|) % 256 >= threshold
    ensures |e.nonces| >= threshold && DistinctCosigners(e.nonces)
  {
    var n := |answers|;
    assert Count(answers, n) >= Count(answers, n) % 256;
    forall k, l | 0 <= k < l < |e.nonces| ensures e.nonces[k].cosigner != e.nonces[l].cosigner {
      var a := RecordIsAnswer(answers, i, n, k);
      var b := RecordIsAnswer(answers, i, n, l);
      if b < a {
        CountOrder(answers, b, a);
      }
      assert e.nonces[Count(answers, a)] == Rel(answers[a].value.cosigner, answers[a].value.nonces[i]);
      assert e.nonces[Count(answers, b)] == Rel(answers[b].value.cosigner, answers[b].value.nonces[i]);
    }
  }

  /** Where each remaining entry came from: same UUID and expiration, still enough cosigners. */
  lemma {:induction false} ClearedFrom(cache: seq<CachedNonce>, id: int, threshold: nat, n: nat) returns (src: seq<nat>)
    requires n <= |cache|
    ensures var out := Cleared(cache, id, threshold, n);
      && |src| == |out| && Increasing(src)
      && (forall i :: 0 <= i < |src| ==>
            && src[i] < n && out[i].uuid == cache[src[i]].uuid && out[i].expiration == cache[src[i]].expiration
            && (|cache[src[i]].nonces| >= threshold ==> |out[i].nonces| >= threshold)
            && (DistinctCosigners(cache[src[i]].nonces) ==> DistinctCosigners(out[i].nonces)))
  {
    src := [];
    if n > 0 {
      src := ClearedFrom(cache, id, threshold, n - 1);
      if Thinned(cache[n - 1], id, threshold).Some? {
        ThinnedDistinct(cache[n - 1], id, threshold);
        src := src + [n - 1];
      }
    }
  }

  lemma {:induction false} ThinnedDistinct(cn: CachedNonce, id: int, threshold: nat)
    requires Thinned(cn, id, threshold).Some?
    ensures DistinctCosigners(cn.nonces) ==> DistinctCosigners(Thinned(cn, id, threshold).value.nonces)
  {
    var k := Find(cn.nonces, id, 0);
    if k.Some? && DistinctCosigners(cn.nonces) {
      RemovedDistinct(cn.nonces, k.value);
    }
  }

  lemma {:induction false} RemovedDistinct(rels: seq<Rel>, k: nat)
    requires k < |rels| && DistinctCosigners(rels)
    ensures DistinctCosigners(Removed(rels, k))
  {
  }

  /** Removing one position takes that cosigner out and nobody else. */
  lemma {:induction false} RemovedOne(rels: seq<Rel>, k: nat, r: Rel)
    requires k < |rels| && DistinctCosigners(rels)
    ensures r in Removed(rels, k) <==> r in rels && r.cosigner != rels[k].cosigner
  {
    var out := Removed(rels, k);
    if r in rels && r.cosigner != rels[k].cosigner {
      var i :| 0 <= i < |rels| && rels[i] == r;
      assert out[if i < k then i else i - 1] == r;
    }
    if r in out {
      var i :| 0 <= i < |out| && out[i] == r;
      assert r == rels[if i < k then i else i + 1];
    }
  }

  /** An entry survives unless it would fall below threshold; it loses the cosigner and nobody else. */
  lemma {:induction false} ThinnedForgets(cn: CachedNonce, id: int, threshold: nat, r: Rel)
    requires DistinctCosigners(cn.nonces)
    ensures var t := Thinned(cn, id, threshold);
      && (t.None? <==> Find(cn.nonces, id, 0).Some? && |cn.nonces| <= threshold)
      && (t.Some? ==> DistinctCosigners(t.value.nonces))
      && (t.Some? ==> (r in t.value.nonces <==> r in cn.nonces && r.cosigner != id))
  {
    var k := Find(cn.nonces, id, 0);
    if k.Some? {
      RemovedDistinct(cn.nonces, k.value);
      RemovedOne(cn.nonces, k.value, r);
    }
  }

  lemma {:induction false} ThinnedGone(cn: CachedNonce, id: int, threshold: nat)
    requires DistinctCosigners(cn.nonces) && Thinned(cn, id, threshold).Some?
    ensures Find(Thinned(cn, id, threshold).value.nonces, id, 0).None?
  {
    var rels := Thinned(cn, id, threshold).value.nonces;
    var k := Find(rels, id, 0);
    if k.Some? {
      ThinnedForgets(cn, id, threshold, rels[k.value]);
    }
  }

  /** After clearing, no entry names the cosigner. */
  lemma {:induction false} ClearedForgets(cache: seq<CachedNonce>, id: int, threshold: nat, n: nat)
    requires n <= |cache| && forall i :: 0 <= i < |cache| ==> DistinctCosigners(cache[i].nonces)
    ensures forall i :: 0 <= i < |Cleared(cache, id, threshold, n)| ==>
      Find(Cleared(cache, id, threshold, n)[i].nonces, id, 0).None?
  {
    if n > 0 {
      ClearedForgets(cache, id, threshold, n - 1);
      if Thinned(cache[n - 1], id, threshold).Some? {
        ThinnedGone(cache[n - 1], id, threshold);
      }
    }
  }

  lemma {:induction false} ClearKeeps(s: State, id: int, threshold: nat)
    requires Valid(s, threshold)
    ensures Valid(Apply(s, Clear(id), threshold), threshold)
  {
    var src := ClearedFrom(s.cache, id, threshold, |s.cache|);
  }

  lemma {:induction false} AddKeeps(s: State, cn: CachedNonce, threshold: nat)
    requires Valid(s, threshold)
    ensures Valid(Apply(s, Add(cn), threshold), threshold)
  {
  }

  lemma {:induction false} GetKeeps(s: State, peers: seq<int>, threshold: nat)
    requires Valid(s, threshold)
    ensures Valid(Apply(s, Get(peers), threshold), threshold)
  {
    var i := FirstCovering(s.cache, peers, 0);
    if i < |s.cache| {
      RemovalKeeps(s, i, threshold);
    }
  }

  lemma {:induction false} RemovalKeeps(s: State, i: nat, threshold: nat)
    requires Valid(s, threshold) && i < |s.cache|
    ensures Valid(s.(cache := Removed(s.cache, i), handed := s.handed + [s.cache[i].uuid]), threshold)
  {
  }

  lemma {:induction false} ApplyKeeps(s: State, e: Event, threshold: nat)
    requires Valid(s, threshold)
    ensures Valid(Apply(s, e, threshold), threshold)
  {
    match e
    case Add(cn) => AddKeeps(s, cn, threshold);
    case Get(peers) => GetKeeps(s, peers, threshold);
    case Clear(id) => ClearKeeps(s, id, threshold);
    case Prune(clock) =>
  }

  ghost function Run(events: seq<Event>, threshold: nat): State {
    if |events| == 0 then State([], {}, [])
    else Apply(Run(events[..|events| - 1], threshold), events[|events| - 1], threshold)
  }

  /** Over any run: no UUID is handed out twice, and every entry keeps threshold different cosigners. */
  lemma {:induction false} HandedOutOnce(events: seq<Event>, threshold: nat)
    ensures Valid(Run(events, threshold), threshold)
  {
    if |events| > 0 {
      HandedOutOnce(events[..|events| - 1], threshold);
      ApplyKeeps(Run(events[..|events| - 1], threshold), events[|events| - 1], threshold);
    }
  }

  /** Whatever the cache hands out holds every requested peer's nonces, uncut. */
  lemma {:induction false} GatheredCovers(cn: CachedNonce, peers: seq<int>, p: nat, q: nat) returns (at: nat)
    requires q < p <= |peers| && Covers(cn, peers)
    ensures var mine := cn.nonces[Find(cn.nonces, peers[q], 0).value].nonces;
      at + |mine| <= |Gathered(cn, peers, p)| && Gathered(cn, peers, p)[at..at + |mine|] == mine
  {
    var mine := cn.nonces[Find(cn.nonces, peers[q], 0).value].nonces;
    if q == p - 1 {
      at := |Gathered(cn, peers, p - 1)|;
      assert Gathered(cn, peers, p) == Gathered(cn, peers, p - 1) + mine;
    } else {
      at := GatheredCovers(cn, peers, p - 1, q);
      assert Gathered(cn, peers, p)[at..at + |mine|] == Gathered(cn, peers, p - 1)[at..at + |mine|];
    }
  }
}
