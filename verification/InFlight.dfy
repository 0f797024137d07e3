// The per-job lock of the monitor (src/common/JobMonitor.cpp:54-80, :270-284) for any number of
// callers: each blocks an id, reads the job's state, writes a new one in a later step, and unblocks.
module InFlight {
  import opened Jobs

  datatype Caller =
    | Outside
    | Blocked(id: string)                  // inserted id, has not looked yet
    | Looked(id: string, seen: JobState)   // read the state, may write on that basis

  /** `jobs` is the schedule's view: the state of each stored job. */
  datatype World = World(callers: seq<Caller>, inFlight: set<string>, jobs: map<string, JobState>)

  datatype Move =
    | Block(who: nat, id: string)
    | Look(who: nat)
    | Write(who: nat)
    | Unblock(who: nat)
    | Add(id: string)       // a new reservation enters the schedule
    | Drop(id: string)      // a reservation leaves it, whether or not someone holds the id

  predicate CanMove(w: World, m: Move) {
    match m
    case Block(who, id) => who < |w.callers| && w.callers[who].Outside? && id !in w.inFlight
    case Look(who) => who < |w.callers| && w.callers[who].Blocked? && w.callers[who].id in w.jobs
    case Write(who) =>
      who < |w.callers| && w.callers[who].Looked? && (w.callers[who].seen.Scheduled? || w.callers[who].seen.Active?)
    case Unblock(who) => who < |w.callers| && !w.callers[who].Outside?
    case Add(id) => id !in w.jobs
    case Drop(_) => true
  }

  /** StartJob writes ACTIVE after it has seen SCHEDULED, StopJob writes DONE after ACTIVE. */
  function Successor(seen: JobState): (next: JobState) {
    if seen.Scheduled? then Active else Done
  }

  function Moved(w: World, m: Move): (w': World)
    requires CanMove(w, m)
  {
    match m
    case Block(who, id) => w.(callers := w.callers[who := Blocked(id)], inFlight := w.inFlight + {id})
    case Look(who) => w.(callers := w.callers[who := Looked(w.callers[who].id, w.jobs[w.callers[who].id])])
    case Write(who) =>
      var k := w.callers[who];
      w.(callers := w.callers[who := Blocked(k.id)],
         jobs := if k.id in w.jobs then w.jobs[k.id := Successor(k.seen)] else w.jobs)
    case Unblock(who) =>
      w.(callers := w.callers[who := Outside], inFlight := w.inFlight - {w.callers[who].id})
    case Add(id) => w.(jobs := w.jobs[id := Scheduled])
    case Drop(id) => w.(jobs := w.jobs - {id})
  }

  /** Caller `i` is between block and unblock for `id`. */
  predicate Inside(w: World, i: int, id: string) {
    0 <= i < |w.callers| && !w.callers[i].Outside? && w.callers[i].id == id
  }

  /** No two callers are inside for the same id, and the set lists exactly the ids held. */
  ghost predicate Exclusive(w: World) {
    && (forall i, j, id :: Inside(w, i, id) && Inside(w, j, id) ==> i == j)
    && (forall id :: id in w.inFlight <==> exists i :: Inside(w, i, id))
  }

  /** What a caller saw is still so, unless the job was replaced by a newly scheduled one. */
  ghost predicate Current(w: World) {
    forall i :: 0 <= i < |w.callers| && w.callers[i].Looked? && w.callers[i].id in w.jobs ==>
      w.jobs[w.callers[i].id] == w.callers[i].seen || w.jobs[w.callers[i].id].Scheduled?
  }

  lemma MoveKeepsOneInside(w: World, m: Move)
    requires Exclusive(w) && CanMove(w, m)
    ensures forall i, j, id :: Inside(Moved(w, m), i, id) && Inside(Moved(w, m), j, id) ==> i == j
  {
    var w' := Moved(w, m);
    forall i, j, id | Inside(w', i, id) && Inside(w', j, id) ensures i == j {
      if !m.Block? {
        assert Inside(w, i, id) && Inside(w, j, id);
      } else if i != m.who && j != m.who {
        assert Inside(w, i, id) && Inside(w, j, id);
      } else if i != j {
        assert Inside(w, if i == m.who then j else i, id);
      }
    }
  }

  lemma MoveKeepsExclusive(w: World, m: Move)
    requires Exclusive(w) && CanMove(w, m)
    ensures Exclusive(Moved(w, m))
  {
    MoveKeepsOneInside(w, m);
    var w' := Moved(w, m);
    forall id ensures id in w'.inFlight <==> exists i :: Inside(w', i, id) {
      if id in w'.inFlight {
        if m.Block? && m.id == id {
          assert Inside(w', m.who, id);
        } else {
          var i :| Inside(w, i, id);
          assert Inside(w', i, id);
        }
      } else if i :| Inside(w', i, id) {
        assert Inside(w, i, id);
        if m.Unblock? {
          assert Inside(w, m.who, w.callers[m.who].id);
        }
      }
    }
  }

  lemma MoveKeepsCurrent(w: World, m: Move)
    requires Exclusive(w) && Current(w) && CanMove(w, m)
    ensures Current(Moved(w, m))
  {
    var w' := Moved(w, m);
    forall i | 0 <= i < |w'.callers| && w'.callers[i].Looked? && w'.callers[i].id in w'.jobs
      ensures w'.jobs[w'.callers[i].id] == w'.callers[i].seen || w'.jobs[w'.callers[i].id].Scheduled?
    {
      if !(m.Look? && i == m.who) {
        assert w.callers[i] == w'.callers[i];
        if m.Write? {
          assert i != m.who;
          assert Inside(w, i, w.callers[i].id) && Inside(w, m.who, w.callers[m.who].id);
          assert w.callers[i].id != w.callers[m.who].id;
        }
      }
    }
  }

  function Play(w: World, moves: seq<Move>): (r: Option<World>) {
    if moves == [] then Some(w)
    else
      match Play(w, moves[..|moves| - 1])
      case None => None
      case Some(m) => if CanMove(m, moves[|moves| - 1]) then Some(Moved(m, moves[|moves| - 1])) else None
  }

  lemma {:induction false} PlayKeepsBoth(w: World, moves: seq<Move>)
    requires Exclusive(w) && Current(w) && Play(w, moves).Some?
    ensures Exclusive(Play(w, moves).value) && Current(Play(w, moves).value)
    decreases |moves|
  {
    if moves != [] {
      var front := moves[..|moves| - 1];
      PlayKeepsBoth(w, front);
      MoveKeepsExclusive(Play(w, front).value, moves[|moves| - 1]);
      MoveKeepsCurrent(Play(w, front).value, moves[|moves| - 1]);
    }
  }

  lemma {:induction false} PlayKeepsCallers(w: World, moves: seq<Move>)
    requires Play(w, moves).Some?
    ensures |Play(w, moves).value.callers| == |w.callers|
    decreases |moves|
  {
    if moves != [] {
      PlayKeepsCallers(w, moves[..|moves| - 1]);
    }
  }

  /** For any number of callers, from a start with nobody inside: an id is in flight exactly while one of
      them, and no other, is between block and unblock for it, and no later move sets a stored job's state
      back. */
  lemma ForwardForAnyNumberOfCallers(n: nat, jobs: map<string, JobState>, moves: seq<Move>, m: Move, id: string)
    requires var w := World(seq(n, _ => Outside), {}, jobs);
             Play(w, moves).Some? && CanMove(Play(w, moves).value, m)
    ensures var w := Play(World(seq(n, _ => Outside), {}, jobs), moves).value;
            && (forall i, j :: Inside(w, i, id) && Inside(w, j, id) ==> i == j)
            && (id in w.inFlight <==> exists i :: Inside(w, i, id))
            && (id in w.jobs && id in Moved(w, m).jobs ==> w.jobs[id].Rank() <= Moved(w, m).jobs[id].Rank())
  {
    PlayKeepsBoth(World(seq(n, _ => Outside), {}, jobs), moves);
  }

  /** What a caller does: block a free id, move the job it has seen one state on, and no other, and leave the
      id free again. */
  lemma MovesDoTheirWork(n: nat, jobs: map<string, JobState>, moves: seq<Move>, who: nat, id: string)
    requires Play(World(seq(n, _ => Outside), {}, jobs), moves).Some?
    ensures var w := Play(World(seq(n, _ => Outside), {}, jobs), moves).value;
            && |w.callers| == n
            && (who < n && w.callers[who].Outside? ==> (CanMove(w, Block(who, id)) <==> id !in w.inFlight))
            && (CanMove(w, Block(who, id)) ==> Inside(Moved(w, Block(who, id)), who, id))
            && (CanMove(w, Unblock(who)) && Inside(w, who, id) ==> id !in Moved(w, Unblock(who)).inFlight)
            && (CanMove(w, Write(who)) && Inside(w, who, id) ==>
                  var after := Moved(w, Write(who)).jobs;
                  && after.Keys == w.jobs.Keys && (forall k :: k in w.jobs && k != id ==> after[k] == w.jobs[k])
                  && (id in w.jobs && w.jobs[id] == w.callers[who].seen ==> after[id].Rank() == w.jobs[id].Rank() + 1))
  {
    PlayKeepsCallers(World(seq(n, _ => Outside), {}, jobs), moves);
  }
}
