/** The tasks a monitor is waiting for, and one round of asking the server about them. */
module TaskMonitor {
  import opened Common

  datatype TaskId = TaskId(text: string)

  /** A caller's reply channel. */
  datatype Chan = Chan(number: nat)

  /** Blueprint to task to the channel on which the submitter waits. */
  type Pending = map<ObjectId, map<TaskId, Chan>>

  ghost predicate Holds(pending: Pending, bp: ObjectId, task: TaskId, chan: Chan) {
    bp in pending && task in pending[bp] && pending[bp][task] == chan
  }

  /** No blueprint is kept without a task, so that emptiness can be read off the outer map. */
  ghost predicate NoEmptyBlueprint(pending: Pending) {
    forall bp <- pending :: pending[bp] != map[]
  }

  ghost predicate OneTaskPerChan(pending: Pending) {
    forall bp, task, bp', task', chan ::
      Holds(pending, bp, task, chan) && Holds(pending, bp', task', chan) ==> bp == bp' && task == task'
  }

  function AddTask(pending: Pending, bp: ObjectId, task: TaskId, chan: Chan): Pending {
    pending[bp := (if bp in pending then pending[bp] else map[])[task := chan]]
  }

  function DeleteTask(pending: Pending, bp: ObjectId, task: TaskId): Pending {
    if bp !in pending then pending
    else if pending[bp].Keys - {task} == {} then pending - {bp}
    else pending[bp := pending[bp] - {task}]
  }

  lemma Added(pending: Pending, bp: ObjectId, task: TaskId, chan: Chan)
    ensures var after := AddTask(pending, bp, task, chan);
            && (NoEmptyBlueprint(pending) ==> NoEmptyBlueprint(after))
            && after != map[]
            && forall b, t, c :: Holds(after, b, t, c) <==>
                                 if b == bp && t == task then c == chan else Holds(pending, b, t, c)
  {
    assert task in AddTask(pending, bp, task, chan)[bp];
  }

  lemma Deleted(pending: Pending, bp: ObjectId, task: TaskId)
    ensures var after := DeleteTask(pending, bp, task);
            && (NoEmptyBlueprint(pending) ==> NoEmptyBlueprint(after))
            && (forall b, t, c :: Holds(after, b, t, c) <==> Holds(pending, b, t, c) && !(b == bp && t == task))
            && (forall b :: b != bp ==> (b in after <==> b in pending) && (b in pending ==> after[b] == pending[b]))
  {
    if bp in pending {
      assert (pending[bp] - {task}).Keys == pending[bp].Keys - {task};
      assert forall t <- pending[bp] :: t == task || t in pending[bp].Keys - {task};
    }
  }

  ghost predicate HasChan(pending: Pending, chan: Chan) {
    exists bp, task :: Holds(pending, bp, task, chan)
  }

  lemma AddedChan(pending: Pending, bp: ObjectId, task: TaskId, chan: Chan, c: Chan)
    requires OneTaskPerChan(pending) && !HasChan(pending, chan)
    ensures OneTaskPerChan(AddTask(pending, bp, task, chan))
    ensures HasChan(AddTask(pending, bp, task, chan), c) <==>
              c == chan || (HasChan(pending, c) && !Holds(pending, bp, task, c))
  {
    var after := AddTask(pending, bp, task, chan);
    Added(pending, bp, task, chan);
    assert Holds(after, bp, task, chan);
    if HasChan(after, c) && c != chan {
      var b, t :| Holds(after, b, t, c);
      assert Holds(pending, b, t, c);
    }
    if HasChan(pending, c) && !Holds(pending, bp, task, c) {
      var b, t :| Holds(pending, b, t, c);
      assert Holds(after, b, t, c);
    }
  }

  lemma DeletedChan(pending: Pending, bp: ObjectId, task: TaskId, chan: Chan, c: Chan)
    requires OneTaskPerChan(pending) && Holds(pending, bp, task, chan)
    ensures OneTaskPerChan(DeleteTask(pending, bp, task))
    ensures HasChan(DeleteTask(pending, bp, task), c) <==> HasChan(pending, c) && c != chan
  {
    var after := DeleteTask(pending, bp, task);
    Deleted(pending, bp, task);
    if HasChan(after, c) {
      var b, t :| Holds(after, b, t, c);
      assert Holds(pending, b, t, c);
    }
    if HasChan(pending, c) && c != chan {
      var b, t :| Holds(pending, b, t, c);
      assert Holds(after, b, t, c);
    }
  }

  lemma EmptyHoldsNothing(pending: Pending)
    requires NoEmptyBlueprint(pending)
    ensures pending == map[] <==> forall bp, task, chan :: !Holds(pending, bp, task, chan)
  {
    if pending != map[] {
      var bp :| bp in pending;
      var task :| task in pending[bp];
      assert Holds(pending, bp, task, pending[bp][task]);
    }
  }

  class PendingTaskData {
    var tasks: Pending

    constructor ()
      ensures tasks == map[]
    {
      tasks := map[];
    }

    method Add(bp: ObjectId, task: TaskId, chan: Chan)
      modifies this
      ensures tasks == AddTask(old(tasks), bp, task, chan)
    {
      if bp !in tasks {
        tasks := tasks[bp := map[]];
      }
      tasks := tasks[bp := tasks[bp][task := chan]];
    }

    method Del(bp: ObjectId, task: TaskId)
      modifies this
      ensures tasks == DeleteTask(old(tasks), bp, task)
    {
      if bp !in tasks {
        return;
      }
      assert (tasks[bp] - {task}).Keys == tasks[bp].Keys - {task};
      tasks := tasks[bp := tasks[bp] - {task}];
      if |tasks[bp]| == 0 {
        tasks := tasks - {bp};
      }
    }

    method IsEmpty() returns (empty: bool)
      ensures empty <==> tasks == map[]
    {
      empty := |tasks| == 0;
    }
  }

  // ----- one round of checks -----

  datatype TaskDetails = Details(text: string) | FetchFailed(text: string)

  datatype TaskInfo =
    | UnknownToServer(bp: ObjectId, task: TaskId)
    | UnexpectedStatus(bp: ObjectId, task: TaskId, status: string)
    | Completed(details: TaskDetails)

  const TASK_INIT := "init"
  const TASK_ONGOING := "in_progress"
  const TASK_FAIL := "failed"
  const TASK_SUCCESS := "succeeded"
  const TASK_TIMEOUT := "timeout"

  /** What the server says during one round: per blueprint the statuses of its tasks, or nothing
      when the request failed; and the details of each task, asked for one by one. */
  datatype Answers = Answers(statuses: map<ObjectId, map<TaskId, string>>, details: (ObjectId, TaskId) -> TaskDetails)

  /** What the round has to tell a submitter: nothing while the task is still working, or while
      the server cannot be asked. */
  function Verdict(answers: Answers, bp: ObjectId, task: TaskId): Option<TaskInfo> {
    if bp !in answers.statuses then None else
    if task !in answers.statuses[bp] then Some(UnknownToServer(bp, task)) else
    var status := answers.statuses[bp][task];
    if status == TASK_INIT || status == TASK_ONGOING then None else
    if status == TASK_FAIL || status == TASK_SUCCESS || status == TASK_TIMEOUT then
      Some(Completed(answers.details(bp, task)))
    else Some(UnexpectedStatus(bp, task, status))
  }

  /** Everything sent on each channel so far. */
  type Mail = map<Chan, seq<TaskInfo>>

  function SentOn(mail: Mail, chan: Chan): seq<TaskInfo> {
    if chan in mail then mail[chan] else []
  }

  /** Of the tasks that were looked at, those with a verdict are gone and their submitters, and
      nobody else, have each been sent that verdict once. */
  ghost predicate Settled(before: Pending, mailBefore: Mail, after: Pending, mailAfter: Mail,
                          answers: Answers, seen: (ObjectId, TaskId) -> bool) {
    && (NoEmptyBlueprint(before) ==> NoEmptyBlueprint(after))
    && (forall bp, task, chan :: Holds(after, bp, task, chan) <==>
          Holds(before, bp, task, chan) && !(seen(bp, task) && Verdict(answers, bp, task).Some?))
    && (forall bp, task, chan :: Holds(before, bp, task, chan) ==>
          SentOn(mailAfter, chan) == SentOn(mailBefore, chan)
            + if seen(bp, task) && Verdict(answers, bp, task).Some? then [Verdict(answers, bp, task).value] else [])
    && (forall chan :: (forall bp, task :: !Holds(before, bp, task, chan)) ==>
          SentOn(mailAfter, chan) == SentOn(mailBefore, chan))
  }

  lemma SettledNothing(pending: Pending, mail: Mail, answers: Answers, seen: (ObjectId, TaskId) -> bool)
    requires forall bp, task, chan :: Holds(pending, bp, task, chan) && seen(bp, task) ==>
               Verdict(answers, bp, task).None?
    ensures Settled(pending, mail, pending, mail, answers, seen)
  {
  }

  lemma SettledOne(before: Pending, mail: Mail, answers: Answers, bp: ObjectId, task: TaskId, chan: Chan)
    requires OneTaskPerChan(before) && Holds(before, bp, task, chan) && Verdict(answers, bp, task).Some?
    ensures Settled(before, mail, DeleteTask(before, bp, task),
                    mail[chan := SentOn(mail, chan) + [Verdict(answers, bp, task).value]], answers,
                    (b, t) => b == bp && t == task)
  {
    Deleted(before, bp, task);
  }

  /** Settling some tasks and then others settles both. */
  lemma SettledFurther(before: Pending, mailBefore: Mail, middle: Pending, mailMiddle: Mail, after: Pending,
                       mailAfter: Mail, answers: Answers, first: (ObjectId, TaskId) -> bool,
                       then_: (ObjectId, TaskId) -> bool, both: (ObjectId, TaskId) -> bool)
    requires OneTaskPerChan(before)
    requires Settled(before, mailBefore, middle, mailMiddle, answers, first)
    requires Settled(middle, mailMiddle, after, mailAfter, answers, then_)
    requires forall bp, task :: both(bp, task) <==> first(bp, task) || then_(bp, task)
    ensures Settled(before, mailBefore, after, mailAfter, answers, both)
    ensures OneTaskPerChan(after)
  {
  }

  class Monitor {
    const pending: PendingTaskData
    var mail: Mail
    var errors: seq<ObjectId>
    var timerArmed: bool

    constructor ()
      ensures fresh(pending) && pending.tasks == map[] && mail == map[] && errors == [] && !timerArmed
    {
      pending := new PendingTaskData();
      mail, errors, timerArmed := map[], [], false;
    }

    method Send(chan: Chan, info: TaskInfo)
      modifies this`mail
      ensures mail == old(mail)[chan := SentOn(old(mail), chan) + [info]]
    {
      mail := mail[chan := SentOn(mail, chan) + [info]];
    }

    /** checkTasksInBlueprint(): tasks come in no particular order. */
    method CheckTasksInBlueprint(bp: ObjectId, answers: Answers)
      requires bp in pending.tasks && bp in answers.statuses
      requires OneTaskPerChan(pending.tasks)
      modifies this`mail, pending
      ensures Settled(old(pending.tasks), old(mail), pending.tasks, mail, answers, (b, t) => b == bp)
      ensures forall b :: b != bp ==> Same(old(pending.tasks), pending.tasks, b)
    {
      ghost var before, mailBefore := pending.tasks, mail;
      var tasks := pending.tasks[bp];
      var todo := tasks.Keys;
      ghost var order: seq<TaskId> := [];
      while todo != {}
        invariant todo <= tasks.Keys
        invariant forall t <- tasks.Keys :: t in todo <==> t !in order
        invariant NoDuplicates(order) && forall t <- order :: t in tasks.Keys
        invariant (pending.tasks, mail) == Play(before, mailBefore, answers, bp, order)
        decreases todo
      {
        var task :| task in todo;
        todo := todo - {task};
        PlayOneMore(before, mailBefore, answers, bp, order, task);
        CheckTask(bp, task, tasks[task], answers);
        order := order + [task];
      }
      PlayAllSettles(before, mailBefore, answers, bp, order);
    }

    /** The body of that loop. */
    method CheckTask(bp: ObjectId, task: TaskId, chan: Chan, answers: Answers)
      requires bp in answers.statuses
      modifies this`mail, pending
      ensures var verdict := Verdict(answers, bp, task);
              && pending.tasks == AfterVerdict(old(pending.tasks), bp, task, verdict)
              && mail == MailAfterVerdict(old(mail), chan, verdict)
    {
      var statuses := answers.statuses[bp];
      if task !in statuses {
        Conclude(bp, task, chan, UnknownToServer(bp, task));
        return;
      }
      var status := statuses[task];
      if status == TASK_INIT || status == TASK_ONGOING {
        return;
      }
      if status != TASK_FAIL && status != TASK_SUCCESS && status != TASK_TIMEOUT {
        Conclude(bp, task, chan, UnexpectedStatus(bp, task, status));
        return;
      }
      Conclude(bp, task, chan, Completed(answers.details(bp, task)));
    }

    /** The submitter is told first, and then the task is forgotten. */
    method Conclude(bp: ObjectId, task: TaskId, chan: Chan, info: TaskInfo)
      modifies this`mail, pending
      ensures mail == old(mail)[chan := SentOn(old(mail), chan) + [info]]
      ensures pending.tasks == DeleteTask(old(pending.tasks), bp, task)
    {
      Send(chan, info);
      pending.Del(bp, task);
    }

    /** checkBlueprints(): a blueprint the server will not talk about is reported and skipped. */
    method CheckBlueprints(answers: Answers)
      requires OneTaskPerChan(pending.tasks)
      modifies this`mail, this`errors, pending
      ensures forall b :: b in errors <==> b in old(errors) || (b in old(pending.tasks) && b !in answers.statuses)
      ensures Settled(old(pending.tasks), old(mail), pending.tasks, mail, answers, (b, t) => true)
    {
      ghost var before, mailBefore := pending.tasks, mail;
      var todo := pending.tasks.Keys;
      SettledNothing(before, mail, answers, (b, t) => b !in todo);
      while todo != {}
        invariant todo <= pending.tasks.Keys && todo <= before.Keys
        invariant forall b <- todo :: Same(before, pending.tasks, b)
        invariant OneTaskPerChan(pending.tasks)
        invariant forall b :: b in errors <==> b in old(errors) || (b in before && b !in todo && b !in answers.statuses)
        invariant Settled(before, mailBefore, pending.tasks, mail, answers, (b, t) => b !in todo)
        decreases todo
      {
        var bp :| bp in todo;
        ghost var middle, mailMiddle, unseen := pending.tasks, mail, todo;
        todo := todo - {bp};
        if bp !in answers.statuses {
          errors := errors + [bp];
          SettledNothing(middle, mail, answers, (b, t) => b == bp);
        } else {
          CheckTasksInBlueprint(bp, answers);
        }
        forall b | b in todo ensures Same(before, pending.tasks, b) {
          assert Same(before, middle, b) && b != bp;
          assert Same(middle, pending.tasks, b);
        }
        SettledFurther(before, mailBefore, middle, mailMiddle, pending.tasks, mail, answers,
                       (b, t) => b !in unseen, (b, t) => b == bp, (b, t) => b !in todo);
      }
    }

    /** check(): the timer is set again exactly when something is still pending. */
    method Check(answers: Answers)
      requires OneTaskPerChan(pending.tasks)
      modifies this`mail, this`errors, this`timerArmed, pending
      ensures Settled(old(pending.tasks), old(mail), pending.tasks, mail, answers, (b, t) => true)
      ensures timerArmed == (old(timerArmed) || pending.tasks != map[])
    {
      CheckBlueprints(answers);
      var empty := pending.IsEmpty();
      if !empty {
        timerArmed := true;
      }
    }
  }

  ghost function AfterVerdict(pending: Pending, bp: ObjectId, task: TaskId, verdict: Option<TaskInfo>): Pending {
    if verdict.Some? then DeleteTask(pending, bp, task) else pending
  }

  ghost function MailAfterVerdict(mail: Mail, chan: Chan, verdict: Option<TaskInfo>): Mail {
    if verdict.Some? then mail[chan := SentOn(mail, chan) + [verdict.value]] else mail
  }

  ghost predicate Same(before: Pending, after: Pending, bp: ObjectId) {
    (bp in before <==> bp in after) && (bp in before ==> before[bp] == after[bp])
  }

  /** The tasks of one blueprint concluded in a given order. */
  ghost function Play(before: Pending, mail: Mail, answers: Answers, bp: ObjectId, order: seq<TaskId>): (Pending, Mail)
    requires bp in before && forall t <- order :: t in before[bp]
  {
    if order == [] then (before, mail) else
    var (pending', mail') := Play(before, mail, answers, bp, order[..|order| - 1]);
    var task := order[|order| - 1];
    var verdict := Verdict(answers, bp, task);
    (AfterVerdict(pending', bp, task, verdict), MailAfterVerdict(mail', before[bp][task], verdict))
  }

  lemma PlayOneMore(before: Pending, mail: Mail, answers: Answers, bp: ObjectId, order: seq<TaskId>, task: TaskId)
    requires bp in before && task in before[bp] && forall t <- order :: t in before[bp]
    ensures forall t <- order + [task] :: t in before[bp]
    ensures Play(before, mail, answers, bp, order + [task])
         == (AfterVerdict(Play(before, mail, answers, bp, order).0, bp, task, Verdict(answers, bp, task)),
             MailAfterVerdict(Play(before, mail, answers, bp, order).1, before[bp][task], Verdict(answers, bp, task)))
  {
    assert (order + [task])[..|order|] == order;
  }

  lemma {:induction false} PlaySettles(before: Pending, mail: Mail, answers: Answers, bp: ObjectId, order: seq<TaskId>)
    requires OneTaskPerChan(before)
    requires bp in before && NoDuplicates(order) && forall t <- order :: t in before[bp]
    ensures var (after, mailAfter) := Play(before, mail, answers, bp, order);
            && Settled(before, mail, after, mailAfter, answers, (b, t) => b == bp && t in order)
            && OneTaskPerChan(after)
            && (forall b :: b != bp ==> Same(before, after, b))
            && (forall t <- before[bp] :: t !in order ==> Holds(after, bp, t, before[bp][t]))
  {
    if order == [] {
      SettledNothing(before, mail, answers, (b, t) => b == bp && t in order);
    } else {
      var init, task := order[..|order| - 1], order[|order| - 1];
      PlaySettles(before, mail, answers, bp, init);
      var (middle, mailMiddle) := Play(before, mail, answers, bp, init);
      var (after, mailAfter) := Play(before, mail, answers, bp, order);
      assert task !in init && forall t :: t in order <==> t in init || t == task;
      OneSettled(middle, mailMiddle, answers, bp, task, before[bp][task]);
      SettledFurther(before, mail, middle, mailMiddle, after, mailAfter, answers, (b, t) => b == bp && t in init,
                     (b, t) => b == bp && t == task, (b, t) => b == bp && t in order);
      forall b | b != bp ensures Same(before, after, b) {
        assert Same(before, middle, b) && Same(middle, after, b);
      }
    }
  }

  lemma PlayAllSettles(before: Pending, mail: Mail, answers: Answers, bp: ObjectId, order: seq<TaskId>)
    requires OneTaskPerChan(before)
    requires bp in before && NoDuplicates(order) && forall t :: t in order <==> t in before[bp]
    ensures var (after, mailAfter) := Play(before, mail, answers, bp, order);
            && Settled(before, mail, after, mailAfter, answers, (b, t) => b == bp)
            && (forall b :: b != bp ==> Same(before, after, b))
  {
    PlaySettles(before, mail, answers, bp, order);
    var (after, mailAfter) := Play(before, mail, answers, bp, order);
    SeenAlike(before, mail, after, mailAfter, answers, (b, t) => b == bp && t in order, (b, t) => b == bp);
  }

  /** Only pending tasks matter. */
  lemma SeenAlike(before: Pending, mail: Mail, after: Pending, mailAfter: Mail, answers: Answers,
                  some: (ObjectId, TaskId) -> bool, all: (ObjectId, TaskId) -> bool)
    requires Settled(before, mail, after, mailAfter, answers, some)
    requires forall b, t, c :: Holds(before, b, t, c) ==> (some(b, t) <==> all(b, t))
    ensures Settled(before, mail, after, mailAfter, answers, all)
  {
  }

  /** One turn of the loop over a blueprint's tasks, whether or not the task is concluded. */
  lemma OneSettled(middle: Pending, mail: Mail, answers: Answers, bp: ObjectId, task: TaskId, chan: Chan)
    requires OneTaskPerChan(middle) && Holds(middle, bp, task, chan)
    ensures var verdict := Verdict(answers, bp, task);
            var after, mailAfter := AfterVerdict(middle, bp, task, verdict), MailAfterVerdict(mail, chan, verdict);
            && Settled(middle, mail, after, mailAfter, answers, (b, t) => b == bp && t == task)
            && (forall b :: b != bp ==> Same(middle, after, b))
            && (forall t, c :: t != task && Holds(middle, bp, t, c) ==> Holds(after, bp, t, c))
  {
    if Verdict(answers, bp, task).Some? {
      SettledOne(middle, mail, answers, bp, task, chan);
      Deleted(middle, bp, task);
    } else {
      SettledNothing(middle, mail, answers, (b, t) => b == bp && t == task);
    }
  }

  /** What a round comes to for one pending task, status by status. */
  lemma RoundOutcome(before: Pending, mailBefore: Mail, after: Pending, mailAfter: Mail, answers: Answers,
                     bp: ObjectId, task: TaskId, chan: Chan)
    requires Settled(before, mailBefore, after, mailAfter, answers, (b, t) => true)
    requires Holds(before, bp, task, chan)
    ensures bp !in answers.statuses ==>
              Holds(after, bp, task, chan) && SentOn(mailAfter, chan) == SentOn(mailBefore, chan)
    ensures bp in answers.statuses && task !in answers.statuses[bp] ==>
              !Holds(after, bp, task, chan)
              && SentOn(mailAfter, chan) == SentOn(mailBefore, chan) + [UnknownToServer(bp, task)]
    ensures bp in answers.statuses && task in answers.statuses[bp] ==>
              var status := answers.statuses[bp][task];
              && (status == "init" || status == "in_progress" ==>
                    Holds(after, bp, task, chan) && SentOn(mailAfter, chan) == SentOn(mailBefore, chan))
              && (status == "failed" || status == "succeeded" || status == "timeout" ==>
                    !Holds(after, bp, task, chan)
                    && SentOn(mailAfter, chan) == SentOn(mailBefore, chan) + [Completed(answers.details(bp, task))])
              && (status !in {"init", "in_progress", "failed", "succeeded", "timeout"} ==>
                    !Holds(after, bp, task, chan)
                    && SentOn(mailAfter, chan) == SentOn(mailBefore, chan) + [UnexpectedStatus(bp, task, status)])
  {
    assert |TASK_INIT| == 4 && |TASK_ONGOING| == 11;
  }

  /** A round empties the monitor exactly when the server has a verdict on every task. */
  lemma ConclusiveRoundEmpties(before: Pending, mailBefore: Mail, after: Pending, mailAfter: Mail, answers: Answers)
    requires NoEmptyBlueprint(before)
    requires Settled(before, mailBefore, after, mailAfter, answers, (b, t) => true)
    ensures after == map[] <==>
              forall bp, task, chan :: Holds(before, bp, task, chan) ==> Verdict(answers, bp, task).Some?
  {
    EmptyHoldsNothing(after);
  }
}
