/** CGI child processes: who is responsible for each of them, from `fork` to `waitpid`
    (cgi/CgiCleanning.cpp and `_reapPending` of src/EventLoop/EventLoop.cpp). */
module Children {
  const REAP_STALE_SECONDS := 60

  /** A forked process.  The kernel may use its pid again once it has been waited for; the serial
      number is never used again. */
  datatype Child = Child(pid: int, serial: nat)

  datatype Pending = Pending(child: Child, since: int)

  datatype Abandoned = Abandoned(child: Child, since: int, at: int)

  /** `running` are the children of live jobs by job descriptor, `pending` is `_pending_reap`.  `kernel`
      holds the processes not yet waited for, with their serials; the rest is history. */
  datatype Wards = Wards(
    running: map<int, Child>, pending: seq<Pending>,
    kernel: map<int, nat>, next: nat, killed: set<nat>, reaped: seq<nat>, givenUp: seq<Abandoned>)

  const NONE := Wards(map[], [], map[], 0, {}, [], [])

  /** `fork` in a job: the kernel hands out a pid no unreaped process has. */
  function Fork(w: Wards, job: int, pid: int): Wards
    requires pid !in w.kernel
  {
    w.(running := w.running[job := Child(pid, w.next)], kernel := w.kernel[pid := w.next], next := w.next + 1)
  }

  /** Results of `waitpid`: 0, the pid, -1. */
  datatype Waited = StillRunning | Collected | NotAChild

  /** `waitpid(pid, WNOHANG)`: a process that is collected is gone. */
  function WaitPid(w: Wards, pid: int, exited: bool): (Wards, Waited)
  {
    if pid !in w.kernel then (w, NotAChild)
    else if !exited then (w, StillRunning)
    else (w.(kernel := w.kernel - {pid}, reaped := w.reaped + [w.kernel[pid]]), Collected)
  }

  /** `kill(pid, SIGKILL)`. */
  function Kill(w: Wards, pid: int): Wards
  {
    if pid in w.kernel then w.(killed := w.killed + {w.kernel[pid]}) else w
  }

  /** `_closeCgiJob`, as far as the child is concerned. */
  function Release(w: Wards, job: int, exited: bool, now: int): Wards
  {
    if job !in w.running then w
    else
      var child := w.running[job];
      var v := WaitPid(w.(running := w.running - {job}), child.pid, exited);
      if v.1 != StillRunning then v.0
      else
        var k := Kill(v.0, child.pid);
        k.(pending := k.pending + [Pending(child, now)])
  }

  /** One entry of `_reapPending`; entries that stay are kept in order behind those already looked at. */
  function ReapOne(w: Wards, exited: bool, now: int): (v: Wards)
    requires w.pending != []
    ensures |v.pending| >= |w.pending| - 1
  {
    var p := w.pending[0];
    var u := w.(pending := w.pending[1..]);
    if now - p.since > REAP_STALE_SECONDS then u.(givenUp := u.givenUp + [Abandoned(p.child, p.since, now)])
    else
      var v := WaitPid(u, p.child.pid, exited);
      if v.1 == StillRunning then v.0.(pending := v.0.pending + [p]) else v.0
  }

  function ReapFirst(w: Wards, n: nat, exits: int -> bool, now: int): Wards
    requires n <= |w.pending|
    decreases n
  {
    if n == 0 then w
    else
      var v := ReapOne(w, exits(w.pending[0].child.pid), now);
      ReapFirst(v, n - 1, exits, now)
  }

  /** `_reapPending`: every entry once. */
  function ReapPending(w: Wards, exits: int -> bool, now: int): Wards
  {
    ReapFirst(w, |w.pending|, exits, now)
  }

  // -------------------------------------------------------------- invariant

  /** The child is unreaped and its pid is still its own. */
  predicate Owned(w: Wards, c: Child)
  {
    c.pid in w.kernel && w.kernel[c.pid] == c.serial
  }

  predicate IsRunning(w: Wards, c: Child) { exists j :: j in w.running && w.running[j] == c }

  predicate IsPending(w: Wards, c: Child) { exists i :: 0 <= i < |w.pending| && w.pending[i].child == c }

  predicate IsGivenUp(w: Wards, c: Child) { exists i :: 0 <= i < |w.givenUp| && w.givenUp[i].child == c }

  predicate HasOwner(w: Wards, pid: int)
    requires pid in w.kernel
  {
    var c := Child(pid, w.kernel[pid]);
    IsRunning(w, c) || IsPending(w, c) || IsGivenUp(w, c)
  }

  ghost predicate AllOwned(w: Wards)
  {
    && (forall j :: j in w.running ==> Owned(w, w.running[j]))
    && (forall i :: 0 <= i < |w.pending| ==> Owned(w, w.pending[i].child) && w.pending[i].child.serial in w.killed)
    && (forall i :: 0 <= i < |w.givenUp| ==> Owned(w, w.givenUp[i].child) && w.givenUp[i].child.serial in w.killed)
  }

  /** No process has two owners. */
  ghost predicate Disjoint(w: Wards)
  {
    && (forall j, k :: j in w.running && k in w.running && j != k ==> w.running[j].pid != w.running[k].pid)
    && (forall i, k :: 0 <= i < k < |w.pending| ==> w.pending[i].child.pid != w.pending[k].child.pid)
    && (forall i, k :: 0 <= i < k < |w.givenUp| ==> w.givenUp[i].child.pid != w.givenUp[k].child.pid)
    && (forall j, i :: j in w.running && 0 <= i < |w.pending| ==> w.running[j].pid != w.pending[i].child.pid)
    && (forall j, i :: j in w.running && 0 <= i < |w.givenUp| ==> w.running[j].pid != w.givenUp[i].child.pid)
    && (forall i, k :: 0 <= i < |w.pending| && 0 <= k < |w.givenUp| ==> w.pending[i].child.pid != w.givenUp[k].child.pid)
  }

  /** Serials: those of unreaped processes and the reaped ones, each once, are all that were forked. */
  ghost predicate Numbered(w: Wards)
  {
    && (forall p :: p in w.kernel ==> w.kernel[p] < w.next && w.kernel[p] !in w.reaped)
    && (forall p, q :: p in w.kernel && q in w.kernel && p != q ==> w.kernel[p] != w.kernel[q])
    && (forall i :: 0 <= i < |w.reaped| ==> w.reaped[i] < w.next)
    && (forall i, k :: 0 <= i < k < |w.reaped| ==> w.reaped[i] != w.reaped[k])
    && (forall s: nat :: s < w.next ==> s in w.reaped || Unreaped(w, s))
  }

  predicate Unreaped(w: Wards, s: nat) { exists p :: p in w.kernel && w.kernel[p] == s }

  ghost predicate Late(w: Wards)
  {
    forall i :: 0 <= i < |w.givenUp| ==> w.givenUp[i].at - w.givenUp[i].since > REAP_STALE_SECONDS
  }

  ghost predicate Inv(w: Wards)
  {
    AllOwned(w) && Disjoint(w) && Numbered(w) && Late(w) && forall p :: p in w.kernel ==> HasOwner(w, p)
  }

  lemma NoneIsInv()
    ensures Inv(NONE)
  {
  }

  lemma ForkIsNumbered(w: Wards, job: int, pid: int)
    requires Numbered(w) && pid !in w.kernel
    ensures Numbered(Fork(w, job, pid))
  {
    var v := Fork(w, job, pid);
    forall s: nat | s < v.next ensures s in v.reaped || Unreaped(v, s) {
      if s == w.next {
        assert v.kernel[pid] == s;
      } else if s !in w.reaped {
        assert Unreaped(w, s);
        var p :| p in w.kernel && w.kernel[p] == s;
        assert v.kernel[p] == s;
      }
    }
  }

  lemma ForkHasOwners(w: Wards, job: int, pid: int)
    requires pid !in w.kernel && job !in w.running && forall p :: p in w.kernel ==> HasOwner(w, p)
    ensures forall p :: p in Fork(w, job, pid).kernel ==> HasOwner(Fork(w, job, pid), p)
  {
    var v := Fork(w, job, pid);
    assert v.running[job] == Child(pid, w.next);
    forall p | p in v.kernel ensures HasOwner(v, p) {
      if p != pid {
        assert HasOwner(w, p);
        RunningStays(w, v, Child(p, w.kernel[p]));
      }
    }
  }

  lemma ForkKeepsInv(w: Wards, job: int, pid: int)
    requires Inv(w) && pid !in w.kernel && job !in w.running
    ensures Inv(Fork(w, job, pid))
  {
    ForkIsNumbered(w, job, pid);
    ForkHasOwners(w, job, pid);
  }

  lemma RunningStays(w: Wards, v: Wards, c: Child)
    requires forall j :: j in w.running ==> j in v.running && v.running[j] == w.running[j]
    ensures IsRunning(w, c) ==> IsRunning(v, c)
  {
    if IsRunning(w, c) {
      var j :| j in w.running && w.running[j] == c;
      assert v.running[j] == c;
    }
  }

  /** A process nobody owns: its job is gone, or its entry was taken off the list. */
  ghost predicate Loose(w: Wards, c: Child)
  {
    && AllOwned(w) && Disjoint(w) && Numbered(w) && Late(w) && Owned(w, c)
    && (forall j :: j in w.running ==> w.running[j].pid != c.pid)
    && (forall i :: 0 <= i < |w.pending| ==> w.pending[i].child.pid != c.pid)
    && (forall i :: 0 <= i < |w.givenUp| ==> w.givenUp[i].child.pid != c.pid)
    && (forall p :: p in w.kernel && p != c.pid ==> HasOwner(w, p))
  }

  lemma CloseMakesLoose(w: Wards, job: int)
    requires Inv(w) && job in w.running
    ensures Loose(w.(running := w.running - {job}), w.running[job])
  {
    var c := w.running[job];
    var v := w.(running := w.running - {job});
    forall p | p in v.kernel && p != c.pid ensures HasOwner(v, p) {
      assert HasOwner(w, p);
      var d := Child(p, w.kernel[p]);
      if IsRunning(w, d) {
        var j :| j in w.running && w.running[j] == d;
        assert j != job && v.running[j] == d;
      } else if IsPending(w, d) {
        assert IsPending(v, d);
      } else {
        assert IsGivenUp(v, d);
      }
    }
  }

  lemma TakeMakesLoose(w: Wards)
    requires Inv(w) && w.pending != []
    ensures Loose(w.(pending := w.pending[1..]), w.pending[0].child)
  {
    var c := w.pending[0].child;
    var v := w.(pending := w.pending[1..]);
    assert forall i :: 0 <= i < |v.pending| ==> v.pending[i] == w.pending[i + 1];
    forall p | p in v.kernel && p != c.pid ensures HasOwner(v, p) {
      assert HasOwner(w, p);
      var d := Child(p, w.kernel[p]);
      if IsPending(w, d) {
        var i :| 0 <= i < |w.pending| && w.pending[i].child == d;
        assert i > 0 && v.pending[i - 1].child == d;
      } else if IsRunning(w, d) {
        assert IsRunning(v, d);
      } else {
        assert IsGivenUp(v, d);
      }
    }
  }

  /** The process leaves the kernel's table and its serial joins the reaped. */
  function Reaped(w: Wards, c: Child): Wards
  {
    w.(kernel := w.kernel - {c.pid}, reaped := w.reaped + [c.serial])
  }

  lemma ReapedIsNumbered(w: Wards, c: Child)
    requires Numbered(w) && Owned(w, c)
    ensures Numbered(Reaped(w, c))
  {
    var v := Reaped(w, c);
    forall s: nat | s < v.next ensures s in v.reaped || Unreaped(v, s) {
      if s == c.serial {
        assert v.reaped[|w.reaped|] == s;
      } else if s !in w.reaped {
        assert Unreaped(w, s);
        var p :| p in w.kernel && w.kernel[p] == s;
        assert p != c.pid && v.kernel[p] == s;
      }
    }
  }

  lemma ReapedOthersOwned(w: Wards, c: Child)
    requires Loose(w, c)
    ensures AllOwned(Reaped(w, c)) && forall p :: p in Reaped(w, c).kernel ==> HasOwner(Reaped(w, c), p)
  {
    var v := Reaped(w, c);
    forall p | p in v.kernel ensures HasOwner(v, p) {
      assert HasOwner(w, p);
      SameOwner(w, v, Child(p, w.kernel[p]));
    }
  }

  /** Waiting for a loose process that has exited settles it: the very process that was meant. */
  lemma ReapedKeepsInv(w: Wards, c: Child)
    requires Loose(w, c)
    ensures WaitPid(w, c.pid, true) == (Reaped(w, c), Collected) && Inv(Reaped(w, c))
  {
    ReapedIsNumbered(w, c);
    ReapedOthersOwned(w, c);
  }

  lemma SameOwner(w: Wards, v: Wards, c: Child)
    requires v.running == w.running && v.pending == w.pending && v.givenUp == w.givenUp
    ensures IsRunning(w, c) == IsRunning(v, c) && IsPending(w, c) == IsPending(v, c) && IsGivenUp(w, c) == IsGivenUp(v, c)
  {
  }

  lemma OwnerStays(w: Wards, v: Wards, c: Child)
    requires w.running == v.running && w.pending <= v.pending && w.givenUp <= v.givenUp
    ensures IsRunning(w, c) ==> IsRunning(v, c)
    ensures IsPending(w, c) ==> IsPending(v, c)
    ensures IsGivenUp(w, c) ==> IsGivenUp(v, c)
  {
    if IsPending(w, c) {
      var i :| 0 <= i < |w.pending| && w.pending[i].child == c;
      assert v.pending[i].child == c;
    }
    if IsGivenUp(w, c) {
      var i :| 0 <= i < |w.givenUp| && w.givenUp[i].child == c;
      assert v.givenUp[i].child == c;
    }
  }

  lemma OwnersStay(w: Wards, v: Wards, c: Child)
    requires w.running == v.running && w.pending <= v.pending && w.givenUp <= v.givenUp && w.kernel == v.kernel
    requires Owned(w, c) && (IsPending(v, c) || IsGivenUp(v, c))
    requires forall p :: p in w.kernel && p != c.pid ==> HasOwner(w, p)
    ensures forall p :: p in v.kernel ==> HasOwner(v, p)
  {
    forall p | p in v.kernel ensures HasOwner(v, p) {
      if p != c.pid {
        assert HasOwner(w, p);
        OwnerStays(w, v, Child(p, w.kernel[p]));
      }
    }
  }

  function Enlisted(w: Wards, c: Child, since: int): Wards { w.(pending := w.pending + [Pending(c, since)]) }

  /** A loose process that was killed goes on the list. */
  lemma EnlistKeepsInv(w: Wards, c: Child, since: int)
    requires Loose(w, c) && c.serial in w.killed
    ensures Inv(Enlisted(w, c, since))
  {
    var v := Enlisted(w, c, since);
    assert v.pending[|w.pending|].child == c;
    OwnersStay(w, v, c);
  }

  /** Or it is given up. */
  lemma AbandonKeepsInv(w: Wards, c: Child, since: int, now: int)
    requires Loose(w, c) && c.serial in w.killed && now - since > REAP_STALE_SECONDS
    ensures Inv(w.(givenUp := w.givenUp + [Abandoned(c, since, now)]))
  {
    var v := w.(givenUp := w.givenUp + [Abandoned(c, since, now)]);
    assert v.givenUp[|w.givenUp|].child == c;
    OwnersStay(w, v, c);
  }

  lemma KillKeepsLoose(w: Wards, c: Child)
    requires Loose(w, c)
    ensures Loose(Kill(w, c.pid), c) && c.serial in Kill(w, c.pid).killed
  {
    var v := Kill(w, c.pid);
    forall p | p in v.kernel && p != c.pid ensures HasOwner(v, p) {
      assert HasOwner(w, p);
      SameOwner(w, v, Child(p, w.kernel[p]));
    }
  }

  lemma ReleaseIs(w: Wards, job: int, exited: bool, now: int)
    requires job in w.running && Owned(w, w.running[job])
    ensures var u, c := w.(running := w.running - {job}), w.running[job];
            Release(w, job, exited, now) == if exited then Reaped(u, c) else Enlisted(Kill(u, c.pid), c, now)
  {
  }

  /** Closing a job reaps its child or kills it and puts it on the list. */
  lemma ReleaseKeepsInv(w: Wards, job: int, exited: bool, now: int)
    requires Inv(w)
    ensures Inv(Release(w, job, exited, now)) && Release(w, job, exited, now).running == w.running - {job}
  {
    if job in w.running {
      var c := w.running[job];
      var u := w.(running := w.running - {job});
      CloseMakesLoose(w, job);
      ReleaseIs(w, job, exited, now);
      if exited {
        ReapedKeepsInv(u, c);
      } else {
        KillKeepsLoose(u, c);
        EnlistKeepsInv(Kill(u, c.pid), c, now);
      }
    } else {
      assert w.running - {job} == w.running;
    }
  }

  lemma ReapOneIs(w: Wards, exited: bool, now: int)
    requires w.pending != [] && Owned(w, w.pending[0].child)
    ensures var u, p := w.(pending := w.pending[1..]), w.pending[0];
            ReapOne(w, exited, now) ==
              if now - p.since > REAP_STALE_SECONDS then u.(givenUp := u.givenUp + [Abandoned(p.child, p.since, now)])
              else if exited then Reaped(u, p.child) else Enlisted(u, p.child, p.since)
  {
  }

  lemma ReapOneKeepsInv(w: Wards, exited: bool, now: int)
    requires Inv(w) && w.pending != []
    ensures Inv(ReapOne(w, exited, now)) && ReapOne(w, exited, now).running == w.running
  {
    var p := w.pending[0];
    var u := w.(pending := w.pending[1..]);
    assert Owned(w, p.child) && p.child.serial in w.killed;
    TakeMakesLoose(w);
    ReapOneIs(w, exited, now);
    if now - p.since > REAP_STALE_SECONDS {
      AbandonKeepsInv(u, p.child, p.since, now);
    } else if exited {
      ReapedKeepsInv(u, p.child);
    } else {
      EnlistKeepsInv(u, p.child, p.since);
    }
  }

  // ------------------------------------------------- what becomes of the list

  predicate Overdue(p: Pending, now: int) { now - p.since > REAP_STALE_SECONDS }

  /** Who waits on, in order: neither overdue nor exited. */
  function Left(ps: seq<Pending>, exits: int -> bool, now: int): seq<Pending>
  {
    if ps == [] then []
    else (if Overdue(ps[0], now) || exits(ps[0].child.pid) then [] else [ps[0]]) + Left(ps[1..], exits, now)
  }

  /** Who is given up: overdue, exited or not. */
  function Dropped(ps: seq<Pending>, now: int): seq<Abandoned>
  {
    if ps == [] then []
    else (if Overdue(ps[0], now) then [Abandoned(ps[0].child, ps[0].since, now)] else []) + Dropped(ps[1..], now)
  }

  /** Who is reaped: exited in time. */
  function Gathered(ps: seq<Pending>, exits: int -> bool, now: int): seq<nat>
  {
    if ps == [] then []
    else (if !Overdue(ps[0], now) && exits(ps[0].child.pid) then [ps[0].child.serial] else []) + Gathered(ps[1..], exits, now)
  }

  /** The first entries have been looked at. */
  ghost predicate SettledFirst(w: Wards, v: Wards, n: nat, exits: int -> bool, now: int)
  {
    n <= |w.pending| &&
    var first := w.pending[..n];
    && v.running == w.running && v.pending == w.pending[n..] + Left(first, exits, now)
    && v.givenUp == w.givenUp + Dropped(first, now) && v.reaped == w.reaped + Gathered(first, exits, now)
  }

  lemma OneThenOthers(w: Wards, v: Wards, n: nat, exits: int -> bool, now: int)
    requires 0 < n <= |w.pending| && Owned(w, w.pending[0].child)
    requires SettledFirst(ReapOne(w, exits(w.pending[0].child.pid), now), v, n - 1, exits, now)
    ensures SettledFirst(w, v, n, exits, now)
  {
    var p := w.pending[0];
    var u := ReapOne(w, exits(p.child.pid), now);
    ReapOneIs(w, exits(p.child.pid), now);
    var one := if Overdue(p, now) || exits(p.child.pid) then [] else [p];
    assert u.pending == w.pending[1..] + one;
    assert w.pending[..n][1..] == u.pending[..n - 1] && u.pending[n - 1..] == w.pending[n..] + one;
    assert w.pending[..n][0] == p;
  }

  lemma {:induction false} ReapFirstSettles(w: Wards, n: nat, exits: int -> bool, now: int)
    requires Inv(w) && n <= |w.pending|
    ensures SettledFirst(w, ReapFirst(w, n, exits, now), n, exits, now)
    decreases n
  {
    if n == 0 {
      assert w.pending[0..] + [] == w.pending && w.givenUp + [] == w.givenUp && w.reaped + [] == w.reaped;
    } else {
      var exited := exits(w.pending[0].child.pid);
      ReapOneKeepsInv(w, exited, now);
      ReapFirstSettles(ReapOne(w, exited, now), n - 1, exits, now);
      OneThenOthers(w, ReapFirst(w, n, exits, now), n, exits, now);
    }
  }

  /** Every entry of the list is given up when it is overdue, else reaped when its process has exited, else it
      waits on in its place. */
  lemma ReapPendingSettles(w: Wards, exits: int -> bool, now: int)
    requires Inv(w)
    ensures var v := ReapPending(w, exits, now);
            v.running == w.running && v.pending == Left(w.pending, exits, now)
            && v.givenUp == w.givenUp + Dropped(w.pending, now) && v.reaped == w.reaped + Gathered(w.pending, exits, now)
  {
    ReapFirstSettles(w, |w.pending|, exits, now);
    assert w.pending[..|w.pending|] == w.pending;
  }

  /** What one entry keeps, all entries keep. */
  lemma {:induction false} ReapFirstKeeps(keeps: Wards -> bool, w: Wards, n: nat, exits: int -> bool, now: int)
    requires forall u, e :: keeps(u) && u.pending != [] ==> keeps(ReapOne(u, e, now)) && ReapOne(u, e, now).running == u.running
    requires keeps(w) && n <= |w.pending|
    ensures keeps(ReapFirst(w, n, exits, now)) && ReapFirst(w, n, exits, now).running == w.running
    decreases n
  {
    if n > 0 { ReapFirstKeeps(keeps, ReapOne(w, exits(w.pending[0].child.pid), now), n - 1, exits, now); }
  }

  lemma ReapPendingKeepsInv(w: Wards, exits: int -> bool, now: int)
    requires Inv(w)
    ensures Inv(ReapPending(w, exits, now)) && ReapPending(w, exits, now).running == w.running
  {
    forall u, e | Inv(u) && u.pending != [] ensures Inv(ReapOne(u, e, now)) && ReapOne(u, e, now).running == u.running {
      ReapOneKeepsInv(u, e, now);
    }
    ReapFirstKeeps(Inv, w, |w.pending|, exits, now);
  }

  /** Conservation: every process that was ever forked is in exactly one of a live job, the pending
      list, the abandoned, or reaped once; the pending were sent SIGKILL, and none was abandoned before
      it had been pending for more than a minute. */
  lemma EveryChildIsAccountedFor(w: Wards, s: nat)
    requires Inv(w) && s < w.next
    ensures s in w.reaped <==> !Unreaped(w, s)
    ensures Unreaped(w, s) ==> exists c: Child :: c.serial == s && Owned(w, c) && OneOf(IsRunning(w, c), IsPending(w, c), IsGivenUp(w, c))
  {
    if Unreaped(w, s) {
      var p :| p in w.kernel && w.kernel[p] == s;
      var c := Child(p, s);
      assert HasOwner(w, p) && Owned(w, c);
      OwnersAreDisjoint(w, c);
    }
  }

  predicate OneOf(a: bool, b: bool, c: bool)
  {
    (a && !b && !c) || (!a && b && !c) || (!a && !b && c)
  }

  lemma OwnersAreDisjoint(w: Wards, c: Child)
    requires Disjoint(w)
    ensures !(IsRunning(w, c) && IsPending(w, c)) && !(IsRunning(w, c) && IsGivenUp(w, c)) && !(IsPending(w, c) && IsGivenUp(w, c))
  {
  }
}
