/** Event registrations: `_event_refs`, `_stale_refs` and the epoll interest set of
    src/EventLoop/EventLoop.cpp, with the heap they point into. */
module EventTable {
  import opened Text

  datatype Kind = Invalid | Server | Client | Cgi

  /** EPOLLIN and EPOLLOUT; errors and hang-ups are always reported. */
  datatype Mask = Mask(input: bool, output: bool)

  const READABLE := Mask(true, false)

  /** An `EventRef`; the serial number tells registrations apart even when an address is reused. */
  datatype Ref = Ref(kind: Kind, fd: int, serial: nat)

  datatype Watch = Watch(ptr: int, mask: Mask)

  /** `heap` holds the references not yet deleted; `interest` is the kernel's. */
  datatype Table = Table(refs: map<int, int>, heap: map<int, Ref>, stale: seq<int>, interest: map<int, Watch>, next: nat)

  const EMPTY := Table(map[], map[], [], map[], 0)

  // ------------------------------------------------------------ operations

  /** `_registerEventFd`, at an address the allocator has free. */
  function Register(t: Table, fd: int, kind: Kind, mask: Mask, ptr: int): Table
  {
    t.(refs := t.refs[fd := ptr], heap := t.heap[ptr := Ref(kind, fd, t.next)],
       interest := t.interest[fd := Watch(ptr, mask)], next := t.next + 1)
  }

  /** `_unregisterEventFd`: the reference is invalidated and deleted only after the batch. */
  function Unregister(t: Table, fd: int): Table
  {
    var u := t.(interest := t.interest - {fd});
    if fd !in t.refs || t.refs[fd] !in t.heap then u
    else
      var p := t.refs[fd];
      u.(heap := t.heap[p := t.heap[p].(kind := Invalid)], stale := t.stale + [p], refs := t.refs - {fd})
  }

  /** `_modifyEventFd`. */
  function Rearm(t: Table, fd: int, mask: Mask): Table
  {
    if KindOf(t, fd).Invalid? || fd !in t.interest then t
    else t.(interest := t.interest[fd := Watch(t.refs[fd], mask)])
  }

  /** The end of a batch. */
  function FreeStale(t: Table): Table
  {
    t.(heap := t.heap - (set p | p in t.stale), stale := [])
  }

  function KindOf(t: Table, fd: int): Kind
  {
    if fd in t.refs && t.refs[fd] in t.heap then t.heap[t.refs[fd]].kind else Invalid
  }

  function MaskOf(t: Table, fd: int): Option<Mask>
  {
    if fd in t.interest then Some(t.interest[fd].mask) else None
  }

  // -------------------------------------------------------------- invariant

  predicate Current(t: Table, fd: int)
  {
    && fd in t.refs && t.refs[fd] in t.heap && t.refs[fd] !in t.stale
    && t.heap[t.refs[fd]].fd == fd && t.heap[t.refs[fd]].kind != Invalid
    && fd in t.interest && t.interest[fd].ptr == t.refs[fd]
  }

  /** No reference is lost: each is current for its descriptor, or invalid and waiting to be deleted. */
  predicate Kept(t: Table, p: int)
  {
    p in t.heap && t.heap[p].serial < t.next &&
    if p in t.stale then t.heap[p].kind == Invalid
    else t.heap[p].fd in t.refs && t.refs[t.heap[p].fd] == p
  }

  ghost predicate Sound(t: Table)
  {
    && (forall fd :: fd in t.refs ==> Current(t, fd))
    && (forall fd :: fd in t.interest ==> fd in t.refs)
    && (forall p :: p in t.heap ==> Kept(t, p))
    && (forall i :: 0 <= i < |t.stale| ==> t.stale[i] in t.heap)
    && (forall i, j :: 0 <= i < j < |t.stale| ==> t.stale[i] != t.stale[j])
    && (forall p, q :: p in t.heap && q in t.heap && p != q ==> t.heap[p].serial != t.heap[q].serial)
  }

  lemma RegisterKeepsSound(t: Table, fd: int, kind: Kind, mask: Mask, ptr: int)
    requires Sound(t) && fd !in t.refs && ptr !in t.heap && kind != Invalid
    ensures Sound(Register(t, fd, kind, mask, ptr))
  {
    var u := Register(t, fd, kind, mask, ptr);
    assert forall f :: f in t.refs ==> Current(t, f);
    assert forall p :: p in t.heap ==> Kept(t, p);
    assert forall f :: f in u.refs ==> Current(u, f);
    assert forall p :: p in u.heap ==> Kept(u, p);
  }

  lemma UnregisterKeepsSound(t: Table, fd: int)
    requires Sound(t)
    ensures Sound(Unregister(t, fd)) && fd !in Unregister(t, fd).refs
  {
    var u := Unregister(t, fd);
    if fd in t.refs {
      assert Current(t, fd);
      forall f | f in u.refs ensures Current(u, f) {
        assert Current(t, f);
      }
      forall p | p in u.heap ensures Kept(u, p) {
        assert Kept(t, p);
      }
    }
  }

  lemma RearmKeepsSound(t: Table, fd: int, mask: Mask)
    requires Sound(t)
    ensures Sound(Rearm(t, fd, mask))
  {
    var u := Rearm(t, fd, mask);
    forall f | f in u.refs ensures Current(u, f) { assert Current(t, f); }
    forall p | p in u.heap ensures Kept(u, p) { assert Kept(t, p); }
  }

  /** Freeing invalid references leaves no dangling registration, and frees each once. */
  lemma FreeStaleKeepsSound(t: Table)
    requires Sound(t)
    ensures Sound(FreeStale(t))
  {
    var u := FreeStale(t);
    forall f | f in u.refs ensures Current(u, f) { assert Current(t, f); }
    forall p | p in u.heap ensures Kept(u, p) { assert Kept(t, p); }
  }

  // What each operation does to kinds and masks.

  lemma RegisterShows(t: Table, fd: int, kind: Kind, mask: Mask, ptr: int, f: int)
    requires Sound(t) && fd !in t.refs && ptr !in t.heap
    ensures var u := Register(t, fd, kind, mask, ptr);
            && KindOf(u, f) == (if f == fd then kind else KindOf(t, f))
            && MaskOf(u, f) == (if f == fd then Some(mask) else MaskOf(t, f))
  {
    if f in t.refs { assert Current(t, f); }
  }

  lemma UnregisterShows(t: Table, fd: int, f: int)
    requires Sound(t)
    ensures var u := Unregister(t, fd);
            && KindOf(u, f) == (if f == fd then Invalid else KindOf(t, f))
            && MaskOf(u, f) == (if f == fd then None else MaskOf(t, f))
  {
    if fd in t.refs { assert Current(t, fd); }
    if f in t.refs { assert Current(t, f); }
  }

  lemma RearmShows(t: Table, fd: int, mask: Mask, f: int)
    requires Sound(t)
    ensures var u := Rearm(t, fd, mask);
            && KindOf(u, f) == KindOf(t, f)
            && MaskOf(u, f) == (if f == fd && !KindOf(t, fd).Invalid? then Some(mask) else MaskOf(t, f))
  {
    if fd in t.refs { assert Current(t, fd); }
    if f in t.refs { assert Current(t, f); }
  }

  lemma FreeStaleShows(t: Table, f: int)
    requires Sound(t)
    ensures KindOf(FreeStale(t), f) == KindOf(t, f) && MaskOf(FreeStale(t), f) == MaskOf(t, f)
  {
    if f in t.refs { assert Current(t, f); }
  }

  lemma RegisteredIffKind(t: Table, fd: int)
    requires Sound(t)
    ensures fd in t.refs <==> !KindOf(t, fd).Invalid?
  {
    if fd in t.refs { assert Current(t, fd); }
  }

  // ---------------------------------------------------------------- batches

  datatype Bits = Bits(error: bool, hangup: bool, input: bool, output: bool)

  /** An event as `epoll_wait` returns it; descriptor and serial say which registration produced it. */
  datatype Event = Event(ptr: int, fd: int, serial: nat, bits: Bits)

  /** The reference the event carries is still that very registration, and not deleted. */
  predicate Named(t: Table, e: Event)
  {
    e.ptr in t.heap && t.heap[e.ptr].serial == e.serial && t.heap[e.ptr].fd == e.fd
  }

  /** The registration is still in force. */
  predicate Live(t: Table, e: Event)
  {
    e.fd in t.refs && t.refs[e.fd] == e.ptr
  }

  /** `_dispatch` acts on an event exactly when the registration that produced it is in force,
      whoever has its descriptor now. */
  lemma ActedOnIffLive(t: Table, e: Event)
    requires Sound(t) && Named(t, e)
    ensures t.heap[e.ptr].kind != Invalid <==> Live(t, e)
    ensures Live(t, e) ==> KindOf(t, e.fd) == t.heap[e.ptr].kind
  {
    assert Kept(t, e.ptr);
    if Live(t, e) { assert Current(t, e.fd); }
  }

  /** Every reference is allocated and knows its descriptor. */
  ghost predicate Tidy(t: Table)
  {
    forall fd :: fd in t.refs ==> t.refs[fd] in t.heap && t.heap[t.refs[fd]].fd == fd
  }

  /** The reference of the event is as it was, and in force or not as before. */
  ghost predicate StaysNamed(t: Table, u: Table, e: Event)
  {
    Named(u, e) && (Live(u, e) ==> Live(t, e) && e.ptr in t.heap && u.heap[e.ptr].kind == t.heap[e.ptr].kind)
  }

  /** A registration leaves every reported reference alone; only an older one of its own descriptor is
      no longer in force. */
  lemma RegisterKeepsNamed(t: Table, fd: int, kind: Kind, mask: Mask, ptr: int, e: Event)
    requires Tidy(t) && Named(t, e) && ptr !in t.heap
    ensures var u := Register(t, fd, kind, mask, ptr);
            StaysNamed(t, u, e) && (Live(u, e) <==> Live(t, e) && e.fd != fd)
  {
  }

  lemma UnregisterKeepsNamed(t: Table, fd: int, e: Event)
    requires Tidy(t) && Named(t, e)
    ensures var u := Unregister(t, fd);
            StaysNamed(t, u, e) && (Live(u, e) <==> Live(t, e) && e.fd != fd)
  {
  }

  /** What the kernel may report: watched descriptors, only bits asked for beside errors and hang-ups. */
  predicate Reportable(t: Table, fd: int, bits: Bits)
  {
    && fd in t.interest && t.interest[fd].ptr in t.heap
    && (bits.input ==> t.interest[fd].mask.input) && (bits.output ==> t.interest[fd].mask.output)
  }

  datatype Ready = Ready(fd: int, bits: Bits)

  predicate Mentions(batch: seq<Event>, fd: int)
  {
    exists i :: 0 <= i < |batch| && batch[i].fd == fd
  }

  /** `epoll_wait`: of the proposed descriptors those that can be reported, each once. */
  function Wait(t: Table, ready: seq<Ready>): (batch: seq<Event>)
    ensures forall i :: 0 <= i < |batch| ==>
              Reportable(t, batch[i].fd, batch[i].bits) && batch[i].ptr == t.interest[batch[i].fd].ptr
              && batch[i].serial == t.heap[batch[i].ptr].serial
    ensures forall i, j :: 0 <= i < j < |batch| ==> batch[i].fd != batch[j].fd
  {
    if ready == [] then []
    else
      var batch, r := Wait(t, ready[..|ready| - 1]), ready[|ready| - 1];
      if !Reportable(t, r.fd, r.bits) || Mentions(batch, r.fd) then batch
      else
        var p := t.interest[r.fd].ptr;
        batch + [Event(p, r.fd, t.heap[p].serial, r.bits)]
  }

  lemma WaitNames(t: Table, ready: seq<Ready>)
    requires Sound(t)
    ensures forall i :: 0 <= i < |Wait(t, ready)| ==> Named(t, Wait(t, ready)[i]) && Live(t, Wait(t, ready)[i])
  {
    var batch := Wait(t, ready);
    forall i | 0 <= i < |batch| ensures Named(t, batch[i]) && Live(t, batch[i]) {
      assert Current(t, batch[i].fd);
    }
  }
}
