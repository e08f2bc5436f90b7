/**
 Sharing out the signing of one block: a worker per chosen cosigner, and replacements from
 the remaining cosigners, fastest first (signer/threshold_validator.go Sign).
 */
module Replacement {
  import opened Wrappers

  datatype Worker = Trying(cosigner: int) | Done(cosigner: int) | Failed

  /** The workers, the next replacement, and the share slots that hold a signature. */
  datatype State = State(workers: seq<Worker>, next: nat, slots: set<int>)

  datatype Event = Success(worker: nat) | Failure(worker: nat)

  /** Who may be asked: this cosigner, the others by speed, and whether replacements are allowed. */
  datatype Setup = Setup(me: int, fastest: seq<int>, chosen: seq<int>, replace: bool)

  ghost predicate Distinct(s: seq<int>) {
    forall i, j :: 0 <= i < j < |s| ==> s[i] != s[j]
  }

  /** The cached-nonce path asks this cosigner and the fastest; the fallback never replaces anybody. */
  ghost predicate Valid(u: Setup) {
    && Distinct(u.chosen) && Distinct(u.fastest) && u.me !in u.fastest
    && (u.replace ==> 1 <= |u.chosen| <= |u.fastest| + 1 && u.chosen == [u.me] + u.fastest[..|u.chosen| - 1])
  }

  function Start(u: Setup): State {
    State(seq(|u.chosen|, i requires 0 <= i < |u.chosen| => Trying(u.chosen[i])), if |u.chosen| > 0 then |u.chosen| - 1 else 0, {})
  }

  function Next(u: Setup, s: State): Worker {
    if u.replace && s.next < |u.fastest| then Trying(u.fastest[s.next]) else Failed
  }

  function Apply(u: Setup, s: State, e: Event): State {
    match e
    case Success(w) =>
      if w < |s.workers| && s.workers[w].Trying?
      then State(s.workers[w := Done(s.workers[w].cosigner)], s.next, s.slots + {s.workers[w].cosigner})
      else s
    case Failure(w) =>
      if w < |s.workers| && s.workers[w].Trying? then
        if s.workers[w].cosigner == u.me then s.(workers := s.workers[w := Failed])
        else State(s.workers[w := Next(u, s)], if u.replace && s.next < |u.fastest| then s.next + 1 else s.next, s.slots)
      else s
  }

  function Run(u: Setup, events: seq<Event>): State {
    if |events| == 0 then Start(u) else Apply(u, Run(u, events[..|events| - 1]), events[|events| - 1])
  }

  predicate Busy(w: Worker) {
    w.Trying? || w.Done?
  }

  /** A cosigner that has been asked already: chosen at first, or drawn as a replacement. */
  ghost predicate Asked(u: Setup, s: State, c: int) {
    c in u.chosen || (u.replace && exists i :: 0 <= i < s.next && i < |u.fastest| && u.fastest[i] == c)
  }

  ghost predicate Inv(u: Setup, s: State) {
    && |s.workers| == |u.chosen|
    && (u.replace ==> |u.chosen| - 1 <= s.next <= |u.fastest|)
    && (forall i :: 0 <= i < |s.workers| && Busy(s.workers[i]) ==> Asked(u, s, s.workers[i].cosigner))
    && (forall i, j :: 0 <= i < j < |s.workers| && Busy(s.workers[i]) && Busy(s.workers[j]) ==>
          s.workers[i].cosigner != s.workers[j].cosigner)
    && (forall c :: c in s.slots <==> exists i :: 0 <= i < |s.workers| && s.workers[i] == Done(c))
  }

  lemma {:induction false} StartInv(u: Setup)
    requires Valid(u)
    ensures Inv(u, Start(u))
  {
  }

  /** The next replacement was never asked before. */
  lemma {:induction false} ReplacementIsNew(u: Setup, s: State)
    requires Valid(u) && Inv(u, s) && u.replace && s.next < |u.fastest|
    ensures !Asked(u, s, u.fastest[s.next])
  {
  }

  lemma {:induction false} SuccessKeeps(u: Setup, s: State, w: nat)
    requires Valid(u) && Inv(u, s)
    ensures Inv(u, Apply(u, s, Success(w)))
  {
    var s' := Apply(u, s, Success(w));
    if w < |s.workers| && s.workers[w].Trying? {
      forall c ensures c in s'.slots <==> exists i :: 0 <= i < |s'.workers| && s'.workers[i] == Done(c) {
        if i :| 0 <= i < |s.workers| && s.workers[i] == Done(c) {
          assert s'.workers[i] == Done(c);
        }
        if c == s.workers[w].cosigner {
          assert s'.workers[w] == Done(c);
        }
      }
    }
  }

  lemma {:induction false} FailureKeeps(u: Setup, s: State, w: nat)
    requires Valid(u) && Inv(u, s)
    ensures Inv(u, Apply(u, s, Failure(w)))
  {
    var s' := Apply(u, s, Failure(w));
    if w < |s.workers| && s.workers[w].Trying? {
      if s.workers[w].cosigner != u.me && u.replace && s.next < |u.fastest| {
        ReplacementIsNew(u, s);
        assert Asked(u, s', u.fastest[s.next]);
      }
      forall i | 0 <= i < |s'.workers| && Busy(s'.workers[i]) ensures Asked(u, s', s'.workers[i].cosigner) {
        if i != w {
          assert Asked(u, s, s.workers[i].cosigner);
        }
      }
      forall c ensures c in s'.slots <==> exists i :: 0 <= i < |s'.workers| && s'.workers[i] == Done(c) {
        if i :| 0 <= i < |s.workers| && s.workers[i] == Done(c) {
          assert s'.workers[i] == Done(c);
        }
      }
    }
  }

  lemma {:induction false} RunKeeps(u: Setup, events: seq<Event>)
    requires Valid(u)
    ensures Inv(u, Run(u, events))
  {
    if |events| == 0 {
      StartInv(u);
    } else {
      var n := |events| - 1;
      RunKeeps(u, events[..n]);
      match events[n]
      case Success(w) => SuccessKeeps(u, Run(u, events[..n]), w);
      case Failure(w) => FailureKeeps(u, Run(u, events[..n]), w);
    }
  }

  /** A worker whose cosigner fails goes on with the next cosigner, as long as one remains and replacing is allowed. */
  lemma {:induction false} FailureGoesOn(u: Setup, s: State, w: nat)
    requires w < |s.workers| && s.workers[w].Trying? && s.workers[w].cosigner != u.me
    ensures var s' := Apply(u, s, Failure(w));
      && s'.slots == s.slots && |s'.workers| == |s.workers|
      && (forall i :: 0 <= i < |s.workers| && i != w ==> s'.workers[i] == s.workers[i])
      && if u.replace && s.next < |u.fastest| then s'.workers[w] == Trying(u.fastest[s.next]) && s'.next == s.next + 1
         else s'.workers[w] == Failed && s'.next == s.next
  {
  }

  /** If this cosigner itself fails, nobody takes its place. */
  lemma {:induction false} OwnFailureEnds(u: Setup, s: State, w: nat)
    requires w < |s.workers| && s.workers[w] == Trying(u.me)
    ensures var s' := Apply(u, s, Failure(w));
      && s'.workers == s.workers[w := Failed] && s'.next == s.next && s'.slots == s.slots
  {
  }

  /** Where replacing is allowed, a worker other than this cosigner's own gives up only once everybody was asked. */
  ghost predicate GaveUpLast(u: Setup, s: State) {
    && |s.workers| == |u.chosen|
    && (forall i :: 0 < i < |s.workers| && Busy(s.workers[i]) ==> s.workers[i].cosigner != u.me)
    && (forall i :: 0 < i < |s.workers| && s.workers[i].Failed? ==> s.next >= |u.fastest|)
  }

  lemma {:induction false} GiveUpStep(u: Setup, s: State, e: Event)
    requires Valid(u) && u.replace && GaveUpLast(u, s)
    ensures GaveUpLast(u, Apply(u, s, e))
  {
  }

  /** In every run with replacements, no share is given up while a cosigner is left that was not asked. */
  lemma {:induction false} NobodyLeftUnasked(u: Setup, events: seq<Event>)
    requires Valid(u) && u.replace
    ensures GaveUpLast(u, Run(u, events))
  {
    if |events| > 0 {
      NobodyLeftUnasked(u, events[..|events| - 1]);
      GiveUpStep(u, Run(u, events[..|events| - 1]), events[|events| - 1]);
    }
  }

  function Filled(ws: seq<Worker>, n: nat): (s: set<int>)
    requires n <= |ws|
    ensures forall c :: c in s <==> exists i :: 0 <= i < n && ws[i] == Done(c)
  {
    if n == 0 then {}
    else if ws[n - 1].Done? then Filled(ws, n - 1) + {ws[n - 1].cosigner}
    else Filled(ws, n - 1)
  }

  lemma {:induction false} FilledCount(ws: seq<Worker>, n: nat)
    requires n <= |ws| && (forall i :: 0 <= i < n ==> ws[i].Done?)
    requires forall i, j :: 0 <= i < j < n ==> ws[i].cosigner != ws[j].cosigner
    ensures |Filled(ws, n)| == n
  {
    if n > 0 {
      FilledCount(ws, n - 1);
      assert ws[n - 1].cosigner !in Filled(ws, n - 1);
    }
  }

  /** If every worker finishes and none fails, exactly as many distinct slots are filled as were chosen. */
  lemma {:induction false} ExactlyThresholdSlots(u: Setup, events: seq<Event>)
    requires Valid(u)
    requires forall i :: 0 <= i < |Run(u, events).workers| ==> Run(u, events).workers[i].Done?
    ensures |Run(u, events).slots| == |u.chosen|
  {
    RunKeeps(u, events);
    var s := Run(u, events);
    FilledCount(s.workers, |s.workers|);
    forall c ensures c in s.slots <==> c in Filled(s.workers, |s.workers|) {
    }
    assert s.slots == Filled(s.workers, |s.workers|);
  }
}
