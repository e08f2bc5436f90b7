/**
 The watermark of one signer on one chain and its cache of recent results
 (signer/sign_state.go). The class has the fields and the critical sections of the original;
 the functions on Watermark say what each section does.
 */
module SigningState {
  import opened Wrappers
  import opened GoInt
  import opened Hrs
  import opened Payload

  const BLOCKS_TO_CACHE := 3

  /** A result at one height, round and step; None stands for a nil slice. */
  datatype Consensus = Consensus(
    key: HRSKey, signature: Option<Data>, extSignature: Option<Data>, signBytes: Option<Data>)

  /** The state as a value: the latest result and the cache. */
  datatype Watermark = Watermark(latest: Consensus, cache: map<HRSKey, Consensus>)

  /** The bytes of a slice that may be nil. */
  function BytesOf(data: Option<Data>): Data {
    if data.Some? then data.value else []
  }

  datatype SaveError = Regression | SameHRS

  datatype GateError =
    HeightRegression | RoundRegression | StepRegression | EmptySignBytes | Conflict(conflict: ConflictError)
    | Panicked

  // ---------------------------------------------------------------- specification

  /** The oldest height that survives a save at this height; int64 arithmetic. */
  function Oldest(height: Int64): Int64 {
    Wrap(height - BLOCKS_TO_CACHE)
  }

  function Pruned(cache: map<HRSKey, Consensus>, height: Int64): map<HRSKey, Consensus> {
    map k | k in cache && k.height >= Oldest(height) :: cache[k]
  }

  function Rejection(latest: HRSKey, key: HRSKey): Option<SaveError> {
    if latest.GreaterThan(key) then Some(Regression)
    else if key == latest then Some(SameHRS)
    else None
  }

  /** The state after a save that succeeded. */
  function Saved(w: Watermark, ssc: Consensus): Watermark {
    Watermark(ssc, Pruned(w.cache[ssc.key := ssc], ssc.key.height))
  }

  function AfterSave(w: Watermark, ssc: Consensus): Watermark {
    if Rejection(w.latest.key, ssc.key).None? then Saved(w, ssc) else w
  }

  /** Whether the key is the latest one with something signed, or an error. */
  function CheckHRS(latest: Consensus, key: HRSKey): Result<bool, GateError> {
    var l := latest.key;
    if l.height > key.height then Err(HeightRegression)
    else if l.height == key.height && l.round > key.round then Err(RoundRegression)
    else if l.height == key.height && l.round == key.round && l.step > key.step then Err(StepRegression)
    else if l == key then
      if latest.signBytes.None? then Err(EmptySignBytes)
      else if latest.signature.None? then Err(Panicked)
      else Ok(true)
    else Ok(false)
  }

  /** The gate: None lets the request through. */
  function Gate(codec: Codec, latest: Consensus, key: HRSKey, signBytes: Data): Option<GateError> {
    match CheckHRS(latest, key)
    case Err(e) => Some(e)
    case Ok(same) =>
      if !same || signBytes == latest.signBytes.value then None
      else if key.step !in {STEP_PROPOSE, STEP_PREVOTE, STEP_PRECOMMIT} then Some(Panicked)
      else
        match OnlyDifferByTimestamp(codec, key.step, latest.signBytes.value, signBytes)
        case None => None
        case Some(c) => Some(Conflict(c))
  }

  /** Which of the three goes back is reported, the height first; at the watermark there must be something signed. */
  lemma {:induction false} CheckMeans(latest: Consensus, key: HRSKey)
    ensures var l, r := latest.key, CheckHRS(latest, key);
      && (r == Err(HeightRegression) <==> key.height < l.height)
      && (r == Err(RoundRegression) <==> key.height == l.height && key.round < l.round)
      && (r == Err(StepRegression) <==> key.height == l.height && key.round == l.round && key.step < l.step)
      && (r == Err(EmptySignBytes) <==> key == l && latest.signBytes.None?)
      && (r == Err(Panicked) <==> key == l && latest.signBytes.Some? && latest.signature.None?)
      && (r == Ok(true) <==> key == l && latest.signBytes.Some? && latest.signature.Some?)
      && (r == Ok(false) <==> key.GreaterThan(l))
  {
  }

  /**
   The gate lets through a key beyond the watermark, and at the watermark only what was signed
   there up to its timestamp; never anything behind it.
   */
  lemma {:induction false} GateMeaning(codec: Codec, latest: Consensus, key: HRSKey, signBytes: Data)
    requires key.step in {STEP_PROPOSE, STEP_PREVOTE, STEP_PRECOMMIT}
    ensures Gate(codec, latest, key, signBytes).None? <==>
      key.GreaterThan(latest.key)
      || (key == latest.key && latest.signBytes.Some? && latest.signature.Some?
          && Same(codec, key.step, latest.signBytes.value, signBytes))
  {
  }

  // ---------------------------------------------------------------- runs of Save

  /** What every save keeps: keys under the watermark and close to it, entries under their own key. */
  ghost predicate Valid(w: Watermark) {
    && (forall k :: k in w.cache ==> w.cache[k].key == k && !k.GreaterThan(w.latest.key))
    && (w.latest.key in w.cache ==> w.cache[w.latest.key] == w.latest)
  }

  /** Fields and cache agree, and nothing older than three heights is left. */
  ghost predicate Settled(w: Watermark) {
    && w.latest.key in w.cache && w.cache[w.latest.key] == w.latest
    && forall k :: k in w.cache ==> k.height >= w.latest.key.height - BLOCKS_TO_CACHE
  }

  function Run(w: Watermark, saves: seq<Consensus>): Watermark {
    if |saves| == 0 then w else AfterSave(Run(w, saves[..|saves| - 1]), saves[|saves| - 1])
  }

  /** Heights low enough for the pruning bound to wrap around; no chain reaches them. */
  predicate WrapsAround(height: Int64) {
    height - BLOCKS_TO_CACHE < -TWO63
  }

  /** One save: a success moves the watermark strictly up and never changes an entry that is kept. */
  lemma {:induction false} SaveStep(w: Watermark, ssc: Consensus)
    requires Valid(w)
    ensures Valid(AfterSave(w, ssc))
    ensures Rejection(w.latest.key, ssc.key).None? <==> ssc.key.GreaterThan(w.latest.key)
    ensures forall k :: k in AfterSave(w, ssc).cache && k in w.cache ==> AfterSave(w, ssc).cache[k] == w.cache[k]
    ensures forall k :: k in AfterSave(w, ssc).cache && k !in w.cache ==> k.GreaterThan(w.latest.key)
  {
  }

  /** After a success the fields are the cached entry, exactly unless the pruning bound wrapped. */
  lemma {:induction false} SaveSettles(w: Watermark, ssc: Consensus)
    requires Valid(w) && Rejection(w.latest.key, ssc.key).None?
    ensures AfterSave(w, ssc).latest == ssc
    ensures Settled(AfterSave(w, ssc)) <==> !WrapsAround(ssc.key.height)
  {
  }

  /** What is cached after a success: its own result, and exactly the earlier entries within three heights. */
  lemma {:induction false} SaveRetains(w: Watermark, ssc: Consensus, k: HRSKey)
    requires Valid(w) && Rejection(w.latest.key, ssc.key).None? && !WrapsAround(ssc.key.height)
    ensures k in AfterSave(w, ssc).cache <==> k == ssc.key || (k in w.cache && k.height >= ssc.key.height - 3)
    ensures ssc.key in AfterSave(w, ssc).cache && AfterSave(w, ssc).cache[ssc.key] == ssc
    ensures k in AfterSave(w, ssc).cache && k in w.cache ==> AfterSave(w, ssc).cache[k] == w.cache[k]
  {
    WrapSmall(ssc.key.height - 3);
  }

  /** The smallest height there is: its own entry is pruned away with the save that made it. */
  lemma {:induction false} LowestHeightWraps(w: Watermark, ssc: Consensus)
    requires Valid(w) && Rejection(w.latest.key, ssc.key).None? && ssc.key.height == -TWO63
    ensures ssc.key !in AfterSave(w, ssc).cache && !Settled(AfterSave(w, ssc))
  {
    assert Oldest(-TWO63) == TWO63 - 3 by {
      WrapCongruent(-TWO63 - 3, TWO63 - 3, -1);
      WrapSmall(TWO63 - 3);
    }
  }

  lemma {:induction false} PrefixStep(w: Watermark, saves: seq<Consensus>, j: nat)
    requires j < |saves|
    ensures Run(w, saves[..j + 1]) == AfterSave(Run(w, saves[..j]), saves[j])
  {
    assert saves[..j + 1][..j] == saves[..j];
  }

  /**
   Over any run of saves, from any point i to any later point j: the watermark never moves
   back, a success in between moved it strictly up, and an entry cached at both is the same.
   */
  lemma {:induction false} RunKeeps(w: Watermark, saves: seq<Consensus>, i: nat, j: nat)
    requires Valid(w) && i <= j <= |saves|
    ensures Valid(Run(w, saves[..i])) && Valid(Run(w, saves[..j]))
    ensures var a, b := Run(w, saves[..i]), Run(w, saves[..j]);
      && (a == b || b.latest.key.GreaterThan(a.latest.key))
      && (forall k :: k in a.cache && k in b.cache ==> a.cache[k] == b.cache[k])
      && (forall k :: k in b.cache && k !in a.cache ==> k.GreaterThan(a.latest.key))
  {
    if j == 0 {
      assert saves[..0] == [];
    } else if i < j {
      RunKeeps(w, saves, i, j - 1);
      PrefixStep(w, saves, j - 1);
      var a, b, ssc := Run(w, saves[..i]), Run(w, saves[..j - 1]), saves[j - 1];
      SaveStep(b, ssc);
      TotalOrder(ssc.key, b.latest.key, a.latest.key);
      forall k | k in AfterSave(b, ssc).cache && k !in b.cache ensures k.GreaterThan(a.latest.key) && k !in a.cache {
        TotalOrder(k, b.latest.key, a.latest.key);
        TotalOrder(k, a.latest.key, k);
      }
    } else {
      RunKeeps(w, saves, i - 1, j - 1);
      PrefixStep(w, saves, j - 1);
      SaveStep(Run(w, saves[..j - 1]), saves[j - 1]);
    }
  }

  /** From a state that is settled or was just created at height zero, every success is settled. */
  lemma {:induction false} RunSettles(w: Watermark, saves: seq<Consensus>)
    requires Valid(w) && w.latest.key.height >= 0
    ensures Valid(Run(w, saves)) && (Run(w, saves) == w || Settled(Run(w, saves)))
    ensures Run(w, saves).latest.key.height >= 0
  {
    if |saves| > 0 {
      var n := |saves| - 1;
      RunSettles(w, saves[..n]);
      var v, ssc := Run(w, saves[..n]), saves[n];
      SaveStep(v, ssc);
      if Rejection(v.latest.key, ssc.key).None? {
        SaveSettles(v, ssc);
      }
    }
  }

  /** Over any run, an entry is still cached, unchanged, as long as it is within three heights of the watermark. */
  lemma {:induction false} RunRetains(w: Watermark, saves: seq<Consensus>, i: nat, j: nat, k: HRSKey)
    requires Valid(w) && w.latest.key.height >= 0 && i <= j <= |saves|
    requires k in Run(w, saves[..i]).cache && k.height >= Run(w, saves[..j]).latest.key.height - 3
    ensures k in Run(w, saves[..j]).cache && Run(w, saves[..j]).cache[k] == Run(w, saves[..i]).cache[k]
  {
    if i < j {
      var v, ssc := Run(w, saves[..j - 1]), saves[j - 1];
      PrefixStep(w, saves, j - 1);
      RunSettles(w, saves[..j - 1]);
      SaveStep(v, ssc);
      RunRetains(w, saves, i, j - 1, k);
      if Rejection(v.latest.key, ssc.key).None? {
        SaveRetains(v, ssc, k);
      }
    }
  }

  /** A save that succeeded is found as long as its height is within three of the watermark. */
  lemma {:induction false} SavedIsFound(w: Watermark, saves: seq<Consensus>, i: nat)
    requires Valid(w) && w.latest.key.height >= 0 && i < |saves|
    requires Rejection(Run(w, saves[..i]).latest.key, saves[i].key).None?
    requires saves[i].key.height >= Run(w, saves).latest.key.height - 3
    ensures saves[i].key in Run(w, saves).cache && Run(w, saves).cache[saves[i].key] == saves[i]
  {
    PrefixStep(w, saves, i);
    RunSettles(w, saves[..i]);
    SaveRetains(Run(w, saves[..i]), saves[i], saves[i].key);
    assert saves[..|saves|] == saves;
    RunRetains(w, saves, i + 1, |saves|, saves[i].key);
  }

  // ---------------------------------------------------------------- the object

  class SignState {
    var height: Int64
    var round: Int64
    var step: int
    var signature: Option<Data>
    var signBytes: Option<Data>
    var extSignature: Option<Data>
    var cache: map<HRSKey, Consensus>

    function View(): Watermark
      reads this
    {
      Watermark(Consensus(HRSKey(height, round, step), signature, extSignature, signBytes), cache)
    }

    /** A new state: height, round and step zero, nothing signed, nothing cached. */
    constructor ()
      ensures View() == Watermark(Consensus(HRSKey(0, 0, 0), None, None, None), map[])
      ensures Valid(View())
    {
      height, round, step := 0, 0, 0;
      signature, signBytes, extSignature := None, None, None;
      cache := map[];
    }

    /** FreshCache: the same fields, with a cache of just the latest result. */
    constructor FreshCache(from: SignState)
      ensures View().latest == from.View().latest
      ensures View().cache == map[from.View().latest.key := from.View().latest]
      ensures Valid(View())
    {
      height, round, step := from.height, from.round, from.step;
      signature, signBytes, extSignature := from.signature, from.signBytes, from.extSignature;
      cache := map[HRSKey(from.height, from.round, from.step) :=
        Consensus(HRSKey(from.height, from.round, from.step), from.signature, from.extSignature, from.signBytes)];
    }

    method GetErrorIfLessOrEqual(key: HRSKey) returns (err: Option<SaveError>)
      ensures err == Rejection(View().latest.key, key)
      ensures err.None? <==> key.GreaterThan(View().latest.key)
      ensures err == Some(SameHRS) <==> key == View().latest.key
    {
      var latest := HRSKey(height, round, step);
      if latest.GreaterThan(key) {
        return Some(Regression);
      }
      if key == latest {
        return Some(SameHRS);
      }
      return None;
    }

    /** blockDoubleSign: check, cache, drop what is too old, move the watermark. */
    method Save(ssc: Consensus) returns (err: Option<SaveError>)
      requires Valid(View())
      modifies this
      ensures err == Rejection(old(View()).latest.key, ssc.key)
      ensures View() == AfterSave(old(View()), ssc) && Valid(View())
      ensures err.None? ==> View().latest == ssc && ssc.key.GreaterThan(old(View()).latest.key)
    {
      SaveStep(View(), ssc);
      err := GetErrorIfLessOrEqual(ssc.key);
      if err.Some? {
        return;
      }
      cache := cache[ssc.key := ssc];
      ghost var full := cache;
      var keys := cache.Keys;
      while keys != {}
        invariant keys <= full.Keys
        invariant forall k :: k in full ==> (k in cache <==> k in keys || k.height >= Oldest(ssc.key.height))
        invariant forall k :: k in cache ==> k in full && cache[k] == full[k]
        decreases keys
        modifies this`cache
      {
        var k :| k in keys;
        if k.height < Oldest(ssc.key.height) {
          cache := map j | j in cache && j != k :: cache[j];
        }
        keys := keys - {k};
      }
      assert cache == Pruned(full, ssc.key.height);
      height, round, step := ssc.key.height, ssc.key.round, ssc.key.step;
      signature, signBytes, extSignature := ssc.signature, ssc.signBytes, ssc.extSignature;
    }

    /** An entry is found exactly if it is cached; it is stored under its own key, behind the watermark or at it. */
    method GetFromCache(key: HRSKey) returns (latest: HRSKey, entry: Option<Consensus>)
      ensures latest == View().latest.key
      ensures entry.Some? <==> key in View().cache
      ensures entry.Some? ==> entry.value == View().cache[key]
      ensures Valid(View()) && entry.Some? ==>
        && entry.value.key == key && !key.GreaterThan(latest)
        && (key == latest ==> entry.value == View().latest)
    {
      latest := HRSKey(height, round, step);
      entry := if key in cache then Some(cache[key]) else None;
    }

    method CheckHeightRoundStep(key: HRSKey) returns (r: Result<bool, GateError>)
      ensures r == CheckHRS(View().latest, key)
    {
      if height > key.height {
        return Err(HeightRegression);
      }
      if height == key.height {
        if round > key.round {
          return Err(RoundRegression);
        }
        if round == key.round {
          if step > key.step {
            return Err(StepRegression);
          } else if step == key.step {
            if signBytes.Some? {
              if signature.None? {
                return Err(Panicked);
              }
              return Ok(true);
            }
            return Err(EmptySignBytes);
          }
        }
      }
      return Ok(false);
    }

    /** The gate in front of every share; it only reads. */
    method ErrorIfConflictOrRegression(codec: Codec, key: HRSKey, bytes: Data) returns (err: Option<GateError>)
      ensures err == Gate(codec, View().latest, key, bytes)
      ensures key.step in {STEP_PROPOSE, STEP_PREVOTE, STEP_PRECOMMIT} && err.None? ==>
        key.GreaterThan(View().latest.key)
        || (key == View().latest.key && signBytes.Some? && Same(codec, key.step, signBytes.value, bytes))
    {
      if key.step in {STEP_PROPOSE, STEP_PREVOTE, STEP_PRECOMMIT} {
        GateMeaning(codec, View().latest, key, bytes);
      }
      var same := CheckHeightRoundStep(key);
      if same.Err? {
        return Some(same.error);
      }
      if !same.value {
        return None;
      }
      if bytes == signBytes.value {
        return None;
      }
      if step !in {STEP_PROPOSE, STEP_PREVOTE, STEP_PRECOMMIT} {
        return Some(Panicked);
      }
      var conflict := OnlyDifferByTimestamp(codec, step, signBytes.value, bytes);
      if conflict.Some? {
        return Some(Conflict(conflict.value));
      }
      return None;
    }
  }
}
