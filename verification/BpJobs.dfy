/**
  The block-production jobs of the transaction collector: status announcements write a queue of three jobs,
  and the timer takes one job off it each interval.
 */
module BpJobs {
  datatype Status = InBootWait | Idle | Primary | Secondary | ErrorOnSigners | Unknown

  datatype Job = Do | Dont | Undecided

  datatype State = State(current: Status, next: Status, jobs: seq<Job>, started: bool)

  const INITIAL := State(InBootWait, Unknown, [], false)

  predicate Valid(s: State) { s.started ==> |s.jobs| == 3 }

  function TurnedOn(s: State): (s': State)
    requires Valid(s)
    ensures Valid(s') && s'.started && s'.current == s.current && s'.next == s.next
  {
    if s.started then s else s.(started := true, jobs := [Dont, Undecided, Undecided])
  }

  /** What an announcement makes of the jobs, given the status in force. */
  function Planned(jobs: seq<Job>, current: Status, next: Status): seq<Job>
    requires |jobs| == 3
  {
    match current
    case Primary =>
      if next.Primary? then jobs[1 := Do]
      else if next.Secondary? then jobs[1 := Dont][2 := Do]
      else jobs[1 := Dont]
    case Secondary => if next.Primary? then jobs[1 := Do] else jobs
    case _ =>
      if next.Primary? then jobs[1 := Do]
      else if next.Secondary? then jobs[1 := Dont][2 := Do]
      else jobs
  }

  function Announced(s: State, status: Status): (s': State)
    requires Valid(s)
    ensures Valid(s')
  {
    var s1 := TurnedOn(s);
    s1.(next := status, jobs := Planned(s1.jobs, s.current, status))
  }

  function Ticked(s: State): (s': State)
    requires Valid(s) && s.started
    ensures Valid(s')
  {
    s.(current := s.next, jobs := s.jobs[1..] + [Undecided])
  }

  class TransactionCollector {
    var current: Status
    var next: Status
    var jobs: seq<Job>
    var started: bool

    ghost function Contents(): State
      reads this
    {
      State(current, next, jobs, started)
    }

    constructor ()
      ensures Contents() == INITIAL
    {
      current, next, jobs, started := InBootWait, Unknown, [], false;
    }

    method SetTxCollectStatus(status: Status)
      requires Valid(Contents())
      modifies this
      ensures Contents() == Announced(old(Contents()), status)
    {
      next := status;
      TurnOnTimer();
      if current == Primary {
        if next == Primary {
          jobs := jobs[1 := Do];
        } else if next == Secondary {
          jobs := jobs[1 := Dont];
          jobs := jobs[2 := Do];
        } else {
          jobs := jobs[1 := Dont];
        }
      } else if current == Secondary {
        if next == Primary {
          jobs := jobs[1 := Do];
        }
      } else {
        if next == Primary {
          jobs := jobs[1 := Do];
        } else if next == Secondary {
          jobs := jobs[1 := Dont];
          jobs := jobs[2 := Do];
        }
      }
    }

    method TurnOnTimer()
      requires Valid(Contents())
      modifies this`jobs, this`started
      ensures Contents() == TurnedOn(old(Contents()))
    {
      if !started {
        started := true;
        jobs := [Dont, Undecided, Undecided];
      }
    }

    /** checkBpJob; signatures are requested for a job to do when the pool has transactions. */
    method CheckBpJob(poolSize: nat) returns (job: Job, requested: bool)
      requires Valid(Contents()) && started
      modifies this
      ensures Contents() == Ticked(old(Contents())) && job == old(jobs[0]) && (requested <==> job == Do && poolSize > 0)
    {
      current := next;
      job := jobs[0];
      jobs := jobs[1..];
      jobs := jobs + [Undecided];
      requested := job == Do && poolSize > 0;
    }
  }

  // ---- one announcement per interval ----

  /** The state after each status was announced and the timer ticked once. */
  function After(statuses: seq<Status>): (s: State)
    ensures Valid(s) && (statuses != [] ==> s.started)
  {
    if statuses == [] then INITIAL
    else Ticked(Announced(After(statuses[..|statuses| - 1]), statuses[|statuses| - 1]))
  }

  /** The job taken off at tick t, the one after announcement t. */
  function JobAt(statuses: seq<Status>, t: nat): Job
    requires t < |statuses|
  {
    Announced(After(statuses[..t]), statuses[t]).jobs[0]
  }

  predicate IsSecondary(statuses: seq<Status>, t: int) { 0 <= t < |statuses| && statuses[t].Secondary? }
  predicate IsPrimary(statuses: seq<Status>, t: int) { 0 <= t < |statuses| && statuses[t].Primary? }

  /** Announced secondary at t, after not being secondary. */
  predicate TurnsSecondary(statuses: seq<Status>, t: int) { IsSecondary(statuses, t) && !IsSecondary(statuses, t - 1) }

  /** The queue after t intervals: its first job was decided by the last announcement, or by the one before. */
  lemma {:induction false} QueueIs(statuses: seq<Status>, t: nat)
    requires t <= |statuses|
    ensures var s := After(statuses[..t]);
            && s.current == (if t == 0 then InBootWait else statuses[t - 1])
            && (t > 0 ==> && |s.jobs| == 3
                          && (s.jobs[0] == Do <==> IsPrimary(statuses, t - 1) || TurnsSecondary(statuses, t - 2))
                          && (s.jobs[1] == Do <==> TurnsSecondary(statuses, t - 1))
                          && s.jobs[2] == Undecided)
  {
    if t > 0 {
      QueueIs(statuses, t - 1);
      assert statuses[..t][..t - 1] == statuses[..t - 1];
    }
  }

  /** With one announcement per interval the queue always has three jobs, nothing is done at the first tick, and
      the job taken off at tick t + 1 is one to do exactly if announcement t is primary, or announcement t - 1
      turned secondary. */
  lemma JobsFollowAnnouncements(statuses: seq<Status>, t: nat)
    requires t < |statuses|
    ensures |After(statuses[..t + 1]).jobs| == 3 && JobAt(statuses, 0) == Dont
    ensures t + 1 < |statuses| ==>
              (JobAt(statuses, t + 1) == Do <==>
                 statuses[t].Primary?
                 || (t >= 1 && statuses[t - 1].Secondary? && (t >= 2 ==> !statuses[t - 2].Secondary?)))
  {
    QueueIs(statuses, t + 1);
    assert statuses[..0] == [];
  }
}
