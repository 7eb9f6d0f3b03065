// internal_encode's push/pull loop as a function of the transform's
// scripted answers, and what it promises about the status it returns and
// the output unit it keeps.
module EncodeLoop {
  import opened Options
  import opened HResults
  import opened Mft

  /** ERROR_CODE: ENCODE_SUCCESS, ENCODE_FAIL, ENCODE_MORE_INPUT, ENCODE_EOF. */
  datatype Code = Success | Fail | MoreInput | Eof

  /** The status a round that needed more input reports: MORE_INPUT when a
      sample was pushed, EOF when the encoder was drained. */
  function Starved(withSample: bool): (c: Code)
    ensures c == MoreInput || c == Eof
    ensures c == MoreInput <==> withSample
  {
    if withSample then MoreInput else Eof
  }

  /** A push status other than success that the loop treats as an error. */
  predicate HardPushFailure(hr: HResult)
  {
    Failed(hr) && hr != MF_E_NOTACCEPTING
  }

  /** A pull status other than success that the loop treats as an error. */
  predicate HardPullFailure(hr: HResult)
  {
    Failed(hr) && hr != MF_E_TRANSFORM_NEED_MORE_INPUT
  }

  /** The unit kept after a pull: the pulled one when the pull succeeded. */
  function Keep(reply: Reply, last: Option<Unit>): (u: Option<Unit>)
    ensures Failed(reply.hr) ==> u == last
    ensures !Failed(reply.hr) ==> u == Some(reply.unit)
  {
    if Failed(reply.hr) then last else Some(reply.unit)
  }

  /** The state after one execution of the do-while body: a status when the
      loop ends there (None when it runs again), the scripts left and the
      unit kept. */
  datatype Step = Step(stop: Option<Code>, pushes: seq<HResult>, pulls: seq<Reply>, last: Option<Unit>)

  /** One execution of the body: push the sample (or, without one, notify
      end of stream and drain, which always succeed); stop with FAIL on a
      push failure other than NOTACCEPTING; pull; stop with FAIL on a pull
      failure other than NEED_MORE_INPUT; keep the unit of a successful
      pull; go round again when the push was NOTACCEPTING; otherwise stop
      with MORE_INPUT/EOF when the pull needed more input and SUCCESS when
      it produced a unit. */
  function Round(withSample: bool, pushes: seq<HResult>, pulls: seq<Reply>, last: Option<Unit>): (s: Step)
    ensures s.pushes == (if withSample then RestPushes(pushes) else pushes)
    ensures s.stop == Some(Fail) <==>
      (withSample && HardPushFailure(NextPush(pushes))) || HardPullFailure(NextPull(pulls).hr)
    ensures s.stop == Some(Fail) ==> s.last == last
    ensures s.stop != Some(Fail) ==>
      pulls != [] && s.pulls == pulls[1..] && s.last == Keep(pulls[0], last)
    ensures s.stop.None? <==> s.stop != Some(Fail) && withSample && NextPush(pushes) == MF_E_NOTACCEPTING
    ensures s.stop == Some(Success) ==> !Failed(pulls[0].hr)
    ensures s.stop == Some(Starved(withSample)) ==> pulls[0].hr == MF_E_TRANSFORM_NEED_MORE_INPUT
    ensures s.stop.Some? ==> s.stop.value in {Fail, Success, Starved(withSample)}
    ensures s.stop == Some(Fail) ==>
      s.pulls == (if withSample && HardPushFailure(NextPush(pushes)) then pulls else RestPulls(pulls))
  {
    var hr1 := if withSample then NextPush(pushes) else S_OK;
    var pushes1 := if withSample then RestPushes(pushes) else pushes;
    if HardPushFailure(hr1) then
      Step(Some(Fail), pushes1, pulls, last)
    else
      var reply := NextPull(pulls);
      if HardPullFailure(reply.hr) then
        Step(Some(Fail), pushes1, RestPulls(pulls), last)
      else
        var last1 := Keep(reply, last);
        if hr1 == MF_E_NOTACCEPTING then
          Step(None, pushes1, RestPulls(pulls), last1)
        else if reply.hr == MF_E_TRANSFORM_NEED_MORE_INPUT then
          Step(Some(Starved(withSample)), pushes1, RestPulls(pulls), last1)
        else
          Step(Some(Success), pushes1, RestPulls(pulls), last1)
  }

  /** The outcome of the whole loop: the status, the scripts left, the unit
      kept, and how many times the body ran. */
  datatype Run = Run(code: Code, pushes: seq<HResult>, pulls: seq<Reply>, last: Option<Unit>, rounds: nat)

  /** The loop from a state in which `rounds` bodies ran and `last` is kept. */
  function Pump(withSample: bool, pushes: seq<HResult>, pulls: seq<Reply>, last: Option<Unit>, rounds: nat): (r: Run)
    decreases |pulls|
  {
    var s := Round(withSample, pushes, pulls, last);
    if s.stop.Some? then Run(s.stop.value, s.pushes, s.pulls, s.last, rounds + 1)
    else Pump(withSample, s.pushes, s.pulls, s.last, rounds + 1)
  }

  /** The status is FAIL or SUCCESS, or MORE_INPUT with a sample and EOF
      without one. */
  lemma {:induction false} PumpCodes(withSample: bool, pushes: seq<HResult>, pulls: seq<Reply>, last: Option<Unit>, rounds: nat)
    ensures Pump(withSample, pushes, pulls, last, rounds).code in {Fail, Success, Starved(withSample)}
    decreases |pulls|
  {
    var s := Round(withSample, pushes, pulls, last);
    if s.stop.None? {
      PumpCodes(withSample, s.pushes, s.pulls, s.last, rounds + 1);
    }
  }

  /** Without a sample the body runs once and no sample is pushed. */
  lemma DrainRunsOnce(pushes: seq<HResult>, pulls: seq<Reply>, last: Option<Unit>, rounds: nat)
    ensures Pump(false, pushes, pulls, last, rounds).rounds == rounds + 1
    ensures Pump(false, pushes, pulls, last, rounds).pushes == pushes
  {
    assert Round(false, pushes, pulls, last).stop.Some?;
  }

  /** The run took at least one round, consumed a prefix of the pulls, and
      at most one pull per round. */
  predicate Consumes(pulls: seq<Reply>, rounds: nat, r: Run)
  {
    rounds < r.rounds && |pulls| - |r.pulls| <= r.rounds - rounds &&
    |r.pulls| <= |pulls| && pulls[|pulls| - |r.pulls|..] == r.pulls
  }

  /** The loop consumes a prefix of the pull script, and at most one pull
      per round. */
  lemma {:induction false} PumpConsumes(withSample: bool, pushes: seq<HResult>, pulls: seq<Reply>, last: Option<Unit>, rounds: nat)
    ensures Consumes(pulls, rounds, Pump(withSample, pushes, pulls, last, rounds))
    decreases |pulls|
  {
    if pulls == [] || (withSample && HardPushFailure(NextPush(pushes))) {
      ConsumesNoPull(withSample, pushes, pulls, last, rounds);
    } else {
      var s := Round(withSample, pushes, pulls, last);
      if s.stop.None? {
        PumpConsumes(withSample, s.pushes, s.pulls, s.last, rounds + 1);
        ConsumesThenGoesOn(withSample, pushes, pulls, last, rounds);
      } else {
        ConsumesOnePull(withSample, pushes, pulls, last, rounds);
      }
    }
  }

  /** A loop that fails before its first pull consumes nothing. */
  lemma ConsumesNoPull(withSample: bool, pushes: seq<HResult>, pulls: seq<Reply>, last: Option<Unit>, rounds: nat)
    requires pulls == [] || (withSample && HardPushFailure(NextPush(pushes)))
    ensures Consumes(pulls, rounds, Pump(withSample, pushes, pulls, last, rounds))
  {
    PumpStopsBeforePull(withSample, pushes, pulls, last, rounds);
    ConsumesOneRound(pulls, 0, rounds, Pump(withSample, pushes, pulls, last, rounds));
  }

  /** A loop whose first round pulls and ends it consumes that one pull. */
  lemma ConsumesOnePull(withSample: bool, pushes: seq<HResult>, pulls: seq<Reply>, last: Option<Unit>, rounds: nat)
    requires !(pulls == [] || (withSample && HardPushFailure(NextPush(pushes))))
    requires Round(withSample, pushes, pulls, last).stop.Some?
    ensures Consumes(pulls, rounds, Pump(withSample, pushes, pulls, last, rounds))
  {
    RoundTakesPull(withSample, pushes, pulls, last);
    PumpStopsAfterRound(withSample, pushes, pulls, last, rounds);
    ConsumesOneRound(pulls, 1, rounds, Pump(withSample, pushes, pulls, last, rounds));
  }

  /** A loop whose first round pulls and goes on consumes that pull, then
      what the rest of the loop consumes. */
  lemma ConsumesThenGoesOn(withSample: bool, pushes: seq<HResult>, pulls: seq<Reply>, last: Option<Unit>, rounds: nat)
    requires !(pulls == [] || (withSample && HardPushFailure(NextPush(pushes))))
    requires var s := Round(withSample, pushes, pulls, last);
      s.stop.None? && Consumes(s.pulls, rounds + 1, Pump(withSample, s.pushes, s.pulls, s.last, rounds + 1))
    ensures Consumes(pulls, rounds, Pump(withSample, pushes, pulls, last, rounds))
  {
    RoundTakesPull(withSample, pushes, pulls, last);
    PumpGoesOn(withSample, pushes, pulls, last, rounds);
    ConsumesFirst(pulls, rounds, Pump(withSample, pushes, pulls, last, rounds));
  }

  /** A run of one round that consumed `taken` (0 or 1) pulls. */
  lemma ConsumesOneRound(pulls: seq<Reply>, taken: nat, rounds: nat, r: Run)
    requires taken <= 1 && taken <= |pulls| && r.pulls == pulls[taken..] && r.rounds == rounds + 1
    ensures Consumes(pulls, rounds, r)
  {
  }

  /** Consuming the first pull in one round and then the rest. */
  lemma ConsumesFirst(pulls: seq<Reply>, rounds: nat, r: Run)
    requires pulls != [] && Consumes(pulls[1..], rounds + 1, r)
    ensures Consumes(pulls, rounds, r)
  {
    assert pulls[1..][|pulls| - 1 - |r.pulls|..] == pulls[|pulls| - |r.pulls|..];
  }

  /** The unit of the last successful pull in `consumed`, or `last` when none
      succeeded. */
  function LastSucceeded(consumed: seq<Reply>, last: Option<Unit>): (u: Option<Unit>)
    ensures u != last ==> exists i | 0 <= i < |consumed| :: u == Some(consumed[i].unit) && !Failed(consumed[i].hr)
    decreases |consumed|
  {
    if consumed == [] then last
    else LastSucceeded(consumed[1..], Keep(consumed[0], last))
  }

  /** The run consumed a prefix of the pulls and keeps the unit of the last
      successful one among them, or `last` when none succeeded. */
  predicate KeepsLast(pulls: seq<Reply>, last: Option<Unit>, r: Run)
  {
    |r.pulls| <= |pulls| && r.last == LastSucceeded(pulls[..|pulls| - |r.pulls|], last)
  }

  /** The loop keeps the unit of the last successful pull it consumed, except
      that a round failing at its pull keeps the unit from before: every
      earlier unit is overwritten, never accumulated. */
  lemma {:induction false} PumpKeepsLast(withSample: bool, pushes: seq<HResult>, pulls: seq<Reply>, last: Option<Unit>, rounds: nat)
    ensures KeepsLast(pulls, last, Pump(withSample, pushes, pulls, last, rounds))
    decreases |pulls|
  {
    var r := Pump(withSample, pushes, pulls, last, rounds);
    if pulls == [] || (withSample && HardPushFailure(NextPush(pushes))) {
      PumpStopsBeforePull(withSample, pushes, pulls, last, rounds);
      KeepsLastUntouched(pulls, last, r);
    } else {
      var s := Round(withSample, pushes, pulls, last);
      RoundTakesPull(withSample, pushes, pulls, last);
      if s.stop.None? {
        PumpGoesOn(withSample, pushes, pulls, last, rounds);
        PumpKeepsLast(withSample, s.pushes, s.pulls, s.last, rounds + 1);
      } else {
        PumpStopsAfterRound(withSample, pushes, pulls, last, rounds);
        KeepsLastUntouched(s.pulls, s.last, r);
      }
      KeepsLastFirst(pulls, last, r);
    }
  }

  /** A run that consumed nothing keeps what it was given. */
  lemma KeepsLastUntouched(pulls: seq<Reply>, last: Option<Unit>, r: Run)
    requires r.pulls == pulls && r.last == last
    ensures KeepsLast(pulls, last, r)
  {
    assert pulls[..0] == [];
  }

  /** Consuming the first pull and then the rest. */
  lemma KeepsLastFirst(pulls: seq<Reply>, last: Option<Unit>, r: Run)
    requires pulls != [] && KeepsLast(pulls[1..], Keep(pulls[0], last), r)
    ensures KeepsLast(pulls, last, r)
  {
    LastSucceededFirst(pulls, r.pulls, last);
  }

  /** With no pull left, or a push failing hard, the loop fails in its
      first round without consuming a pull or changing the unit kept. */
  lemma PumpStopsBeforePull(withSample: bool, pushes: seq<HResult>, pulls: seq<Reply>, last: Option<Unit>, rounds: nat)
    requires pulls == [] || (withSample && HardPushFailure(NextPush(pushes)))
    ensures Pump(withSample, pushes, pulls, last, rounds) ==
      Run(Fail, if withSample then RestPushes(pushes) else pushes, pulls, last, rounds + 1)
  {
  }

  /** A round whose push does not fail hard, with a pull left, consumes
      exactly that pull, and keeps its unit when it succeeded (a failed pull
      keeps the unit from before). */
  lemma RoundTakesPull(withSample: bool, pushes: seq<HResult>, pulls: seq<Reply>, last: Option<Unit>)
    requires pulls != [] && !(withSample && HardPushFailure(NextPush(pushes)))
    ensures var s := Round(withSample, pushes, pulls, last);
      s.pulls == pulls[1..] && s.last == Keep(pulls[0], last)
  {
  }

  /** A first round that ends the loop decides its outcome. */
  lemma PumpStopsAfterRound(withSample: bool, pushes: seq<HResult>, pulls: seq<Reply>, last: Option<Unit>, rounds: nat)
    requires Round(withSample, pushes, pulls, last).stop.Some?
    ensures var s := Round(withSample, pushes, pulls, last);
      Pump(withSample, pushes, pulls, last, rounds) == Run(s.stop.value, s.pushes, s.pulls, s.last, rounds + 1)
  {
  }

  /** A first round that does not end the loop leaves it to run again from
      the state that round leaves. */
  lemma PumpGoesOn(withSample: bool, pushes: seq<HResult>, pulls: seq<Reply>, last: Option<Unit>, rounds: nat)
    requires Round(withSample, pushes, pulls, last).stop.None?
    ensures var s := Round(withSample, pushes, pulls, last);
      Pump(withSample, pushes, pulls, last, rounds) == Pump(withSample, s.pushes, s.pulls, s.last, rounds + 1)
  {
  }

  /** Consuming a nonempty prefix of the pulls: the first one is kept or
      not, then the rest of the prefix decides. */
  lemma LastSucceededFirst(pulls: seq<Reply>, rest: seq<Reply>, last: Option<Unit>)
    requires pulls != [] && |rest| < |pulls|
    ensures LastSucceeded(pulls[..|pulls| - |rest|], last) ==
      LastSucceeded(pulls[1..][..|pulls| - 1 - |rest|], Keep(pulls[0], last))
  {
    var c := pulls[..|pulls| - |rest|];
    assert c[0] == pulls[0] && c[1..] == pulls[1..][..|pulls| - 1 - |rest|];
  }

  /** With a sample, every push but the last answered NOTACCEPTING: the body
      repeats exactly while the transform refuses input. */
  lemma {:induction false} PumpRepeatsOnNotAccepting(pushes: seq<HResult>, pulls: seq<Reply>, last: Option<Unit>, rounds: nat)
    ensures var r := Pump(true, pushes, pulls, last, rounds);
      rounds < r.rounds && r.rounds - rounds - 1 <= |pushes| &&
      forall i | 0 <= i < r.rounds - rounds - 1 :: pushes[i] == MF_E_NOTACCEPTING
    decreases |pulls|
  {
    var s := Round(true, pushes, pulls, last);
    if s.stop.None? {
      PumpRepeatsOnNotAccepting(s.pushes, s.pulls, s.last, rounds + 1);
      assert pushes[0] == MF_E_NOTACCEPTING;
      assert forall i | 1 <= i < |pushes| :: pushes[i] == s.pushes[i - 1];
    }
  }

  /** The status reports the last round: SUCCESS only when its pull
      produced a unit, MORE_INPUT or EOF only when its pull needed more
      input. */
  lemma {:induction false} PumpFinalRound(withSample: bool, pushes: seq<HResult>, pulls: seq<Reply>, last: Option<Unit>, rounds: nat)
    ensures FinalPull(withSample, pulls, Pump(withSample, pushes, pulls, last, rounds))
    decreases |pulls|
  {
    var s := Round(withSample, pushes, pulls, last);
    var r := Pump(withSample, pushes, pulls, last, rounds);
    if s.stop.None? {
      PumpFinalRound(withSample, s.pushes, s.pulls, s.last, rounds + 1);
      assert r == Pump(withSample, s.pushes, s.pulls, s.last, rounds + 1);
      FinalPullShift(withSample, pulls, r);
    } else {
      assert r == Run(s.stop.value, s.pushes, s.pulls, s.last, rounds + 1);
    }
  }

  /** Run r consumed a prefix of pulls and, when it reports SUCCESS or
      MORE_INPUT/EOF, the last pull it consumed succeeded or needed more
      input. */
  predicate FinalPull(withSample: bool, pulls: seq<Reply>, r: Run)
  {
    |r.pulls| <= |pulls| &&
    (r.code == Success ==> |r.pulls| < |pulls| && !Failed(pulls[|pulls| - |r.pulls| - 1].hr)) &&
    (r.code == Starved(withSample) ==>
       |r.pulls| < |pulls| && pulls[|pulls| - |r.pulls| - 1].hr == MF_E_TRANSFORM_NEED_MORE_INPUT)
  }

  /** The property survives one more pull consumed in front. */
  lemma FinalPullShift(withSample: bool, pulls: seq<Reply>, r: Run)
    requires pulls != [] && FinalPull(withSample, pulls[1..], r)
    ensures FinalPull(withSample, pulls, r)
  {
    var q := pulls[1..];
    if |r.pulls| < |q| {
      var i := |q| - |r.pulls| - 1;
      assert q[i] == pulls[i + 1];
    }
  }


}
