/** The mailboxes of `Sessions` are mailboxes of the scheduler. */
module SessionBoxes {
  import opened Sessions
  import opened SchedulerBoxes

  /** The timer messages of an env, by their sessions. */
  function EnvQueue(e: Env): Queue<nat> {
    Queue(e.box, if e.flight.Some? then [e.flight.value] else [])
  }

  lemma Posted(e: Env, x: nat)
    ensures QueueStep(EnvQueue(e), EnvQueue(e.(box := e.box + [x])))
  {
    assert EnvQueue(e.(box := e.box + [x])) == Queue(EnvQueue(e).items + [x], EnvQueue(e).flight);
  }

  /** Each step of the sessions does to the mailbox of each env what a step of the scheduler can do
      to a mailbox. */
  lemma EnvStep(s: State, a: Step, e: nat)
    requires s.wheel.Ok() && Enabled(s, a) && e < |s.envs|
    ensures |Do(s, a).envs| == |s.envs| && QueueStep(EnvQueue(s.envs[e]), EnvQueue(Do(s, a).envs[e]))
  {
    SameQueue(EnvQueue(s.envs[e]));
    if a.FireNext? {
      Posted(s.envs[e], s.wheel.slots[s.wheel.current][0].ud % SESSIONS);
    }
  }
}
