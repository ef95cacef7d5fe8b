/** Building runs of the interleaved server step by step. */
module Runs {
  import opened Tables
  import opened Interleaving

  lemma {:induction false} Snoc(init: State, steps: seq<Step>, step: Step, maxClients: int)
    requires Valid(init.db) && Legal(init, steps, maxClients)
    requires Valid(Reach(init, steps, maxClients).db) && Enabled(Reach(init, steps, maxClients), step, maxClients)
    ensures Legal(init, steps + [step], maxClients)
    ensures Reach(init, steps + [step], maxClients) == After(Reach(init, steps, maxClients), step, maxClients)
    decreases |steps|
  {
    var longer := steps + [step];
    if steps == [] {
      assert longer[0] == step && longer[1..] == [];
      StepFollows(init, step, maxClients);
    } else {
      assert longer[0] == steps[0] && longer[1..] == steps[1..] + [step];
      StepFollows(init, steps[0], maxClients);
      Snoc(After(init, steps[0], maxClients), steps[1..], step, maxClients);
    }
  }

  /** `steps` is a run from `init` to `s`. */
  ghost predicate RunTo(init: State, steps: seq<Step>, s: State, maxClients: int) {
    Valid(init.db) && Valid(s.db) && Legal(init, steps, maxClients) && Reach(init, steps, maxClients) == s
  }

  /** `step` leads from `s` to `s'`. */
  ghost predicate StepTo(s: State, step: Step, s': State, maxClients: int) {
    Valid(s.db) && Valid(s'.db) && Enabled(s, step, maxClients) && After(s, step, maxClients) == s'
  }

  lemma Go(init: State, steps: seq<Step>, s: State, step: Step, s': State, maxClients: int)
    requires RunTo(init, steps, s, maxClients) && StepTo(s, step, s', maxClients)
    ensures RunTo(init, steps + [step], s', maxClients)
  {
    Snoc(init, steps, step, maxClients);
  }

  function WithHandler(s: State, h: HandlerId, me: Handler): State {
    s.(handlers := s.handlers[h := me])
  }

  // ----- a client connects

  const CONNECTED: Handler := FRESH.(pc := Idle)

  function Connected(s: State, h: HandlerId): State {
    WithHandler(s, h, CONNECTED).(active := s.active + 1)
  }

  lemma Connect(init: State, steps: seq<Step>, s: State, h: HandlerId, maxClients: int) returns (more: seq<Step>)
    requires RunTo(init, steps, s, maxClients)
    requires s.acceptor == Listening && s.active < maxClients && h !in s.handlers
    ensures RunTo(init, more, Connected(s, h), maxClients)
  {
    var s1 := s.(acceptor := Admitted);
    var s2 := s1.(acceptor := Counted, active := s.active + 1);
    var s3 := WithHandler(s2.(acceptor := Listening), h, FRESH);
    Go(init, steps, s, Admit, s1, maxClients);
    Go(init, steps + [Admit], s1, Count, s2, maxClients);
    Go(init, steps + [Admit] + [Count], s2, Spawn(h), s3, maxClients);
    assert Connected(s, h).handlers == s3.handlers[h := CONNECTED];
    Go(init, steps + [Admit] + [Count] + [Spawn(h)], s3, Begin(h), Connected(s, h), maxClients);
    more := steps + [Admit] + [Count] + [Spawn(h)] + [Begin(h)];
  }
}
