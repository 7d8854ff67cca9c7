/** Why flooding visits everything exactly once: the tree splits at every hub. */
module HubTree {
  import opened Prelude
  import opened HubSpec

  lemma {:induction false} UnderDepth(t: Forest, k: HubId, c: HubId)
    requires k in t.net && Under(t, k, c)
    ensures c in t.net && t.depth[c] <= t.depth[k] && (k != c ==> t.depth[c] < t.depth[k] && Active(t.net, c))
    ensures Top(t, k) == Top(t, c)
    decreases t.depth[k]
  {
    if k != c {
      UnderDepth(t, Parent(t.net, k).value, c);
    }
  }

  lemma {:induction false} UnderTrans(t: Forest, k: HubId, c: HubId, h: HubId)
    requires k in t.net && c in t.net
    requires Under(t, k, c) && Under(t, c, h)
    ensures Under(t, k, h)
    decreases t.depth[k]
  {
    if k != c {
      UnderTrans(t, Parent(t.net, k).value, c, h);
    }
  }

  lemma {:induction false} UnderTop(t: Forest, k: HubId)
    requires k in t.net
    ensures Under(t, k, Top(t, k))
    ensures Parent(t.net, Top(t, k)) == None
    decreases t.depth[k]
  {
    if Parent(t.net, k).Some? {
      UnderTop(t, Parent(t.net, k).value);
    }
  }

  /** The child of h on the way from k up to h. */
  lemma {:induction false} ChildOnTheWay(t: Forest, k: HubId, h: HubId) returns (c: HubId)
    requires k in t.net && Under(t, k, h) && k != h
    ensures c in t.net && Parent(t.net, c) == Some(h) && Under(t, k, c)
    ensures k == c || Active(t.net, c)
    decreases t.depth[k]
  {
    var p := Parent(t.net, k).value;
    if p == h {
      c := k;
    } else {
      c := ChildOnTheWay(t, p, h);
    }
  }

  lemma {:induction false} Comparable(t: Forest, k: HubId, a: HubId, b: HubId)
    requires k in t.net && a in t.net && b in t.net
    requires Under(t, k, a) && Under(t, k, b)
    ensures Under(t, a, b) || Under(t, b, a)
    decreases t.depth[k]
  {
    if k != a && k != b {
      Comparable(t, Parent(t.net, k).value, a, b);
    }
  }

  /** Two children of one hub have nothing below in common. */
  lemma ChildrenApart(t: Forest, h: HubId, a: HubId, b: HubId, k: HubId)
    requires k in t.net && a in t.net && b in t.net
    requires Parent(t.net, a) == Some(h) && Parent(t.net, b) == Some(h)
    requires Under(t, k, a) && Under(t, k, b)
    ensures a == b
  {
    Comparable(t, k, a, b);
    if a != b {
      if Under(t, a, b) {
        UnderDepth(t, h, b);
      } else {
        UnderDepth(t, h, a);
      }
    }
  }

  /** A child has nothing above it below it. */
  lemma NotUnderChild(t: Forest, h: HubId, c: HubId)
    requires c in t.net && Parent(t.net, c) == Some(h)
    ensures h in t.net && !Under(t, h, c)
  {
    if Under(t, h, c) {
      UnderDepth(t, h, c);
    }
  }

  // ----- One hub: where an expected event comes from

  /** The active child behind port j of h. */
  predicate ChildAt(net: Net, h: HubId, j: IoId, c: HubId) {
    && h in net && c in net && j in net[h].table
    && net[h].table[j] == HandlerEnd(j, c) && net[c].handlerId == j && Active(net, c)
  }

  /** The events that handling port j at h gives rise to. */
  ghost predicate ViaPort(t: Forest, alive: set<ObjId>,
                          h: HubId, j: IoId, d: Data, e: Event)
    requires h in t.net
  {
    || (e.Got? && e.hub == h && e.port == j && Legit(t.net, alive, d, None, e))
    || exists c :: ChildAt(t.net, h, j, c) && Expected(t, alive, c, j, d, None, e)
  }

  /** The events that passing the message to the target of h gives rise to. */
  ghost predicate ViaTarget(t: Forest, alive: set<ObjId>,
                            h: HubId, d: Data, handler: HandlerRef, e: Event)
    requires h in t.net
  {
    match t.net[h].target
    case NoTarget => false
    case OuterTarget(obj) => obj in alive && e == Reached(h, obj, t.net[h].handlerId, d, handler)
    case HubTarget(p) => Expected(t, alive, p, t.net[h].handlerId, d, handler, e)
  }

  lemma ChildAtIsChild(t: Forest, h: HubId, j: IoId, c: HubId)
    requires Active(t.net, h) && ChildAt(t.net, h, j, c)
    ensures Parent(t.net, c) == Some(h)
  {
    assert Live(t.net, t.net[h].table[j]);
  }

  /** Events below an active child: the exclusions of the recursive call exclude nothing. */
  lemma ExpectedBelow(t: Forest, alive: set<ObjId>,
                      h: HubId, c: HubId, d: Data, handler: HandlerRef, e: Event)
    requires Active(t.net, h) && Active(t.net, c) && Parent(t.net, c) == Some(h)
    ensures Expected(t, alive, c, t.net[c].handlerId, d, None, e) <==>
            Legit(t.net, alive, d, handler, e) && Under(t, e.hub, c)
  {
    if Active(t.net, e.hub) && Under(t, e.hub, c) {
      UnderDepth(t, e.hub, c);
      assert Parent(t.net, e.hub).Some?;
    }
  }

  /** Events above a hub with an active target hub: everything in the tree that is not below it. */
  lemma ExpectedAbove(t: Forest, alive: set<ObjId>,
                      h: HubId, p: HubId, d: Data, handler: HandlerRef, e: Event)
    requires Active(t.net, h) && Parent(t.net, h) == Some(p)
    ensures Expected(t, alive, p, t.net[h].handlerId, d, handler, e) <==>
            && Legit(t.net, alive, d, handler, e)
            && Top(t, e.hub) == Top(t, h)
            && !Under(t, e.hub, h)
  {
    assert t.net[h].handlerId in t.net[p].table && t.net[p].table[t.net[h].handlerId] == HandlerEnd(t.net[h].handlerId, h);
    if Active(t.net, e.hub) {
      assert Behind(t, p, t.net[h].handlerId, e.hub) <==> Under(t, e.hub, h) by {
        forall c | c in t.net && Parent(t.net, c) == Some(p) && t.net[c].handlerId == t.net[h].handlerId ensures c == h {
          assert t.net[p].table[t.net[c].handlerId] == HandlerEnd(t.net[c].handlerId, c);
        }
      }
    }
  }

  lemma PortsApart(t: Forest, alive: set<ObjId>,
                   h: HubId, i: IoId, j: IoId, d: Data, e: Event)
    requires Active(t.net, h)
    requires ViaPort(t, alive, h, i, d, e) && ViaPort(t, alive, h, j, d, e)
    ensures i == j
  {
    forall x, c | (x == i || x == j) && ChildAt(t.net, h, x, c) && Expected(t, alive, c, x, d, None, e)
      ensures Parent(t.net, c) == Some(h) && Under(t, e.hub, c) && e.hub != h
    {
      ChildAtIsChild(t, h, x, c);
      ExpectedBelow(t, alive, h, c, d, None, e);
      NotUnderChild(t, h, c);
    }
    forall c1, c2 | ChildAt(t.net, h, i, c1) && Expected(t, alive, c1, i, d, None, e)
                 && ChildAt(t.net, h, j, c2) && Expected(t, alive, c2, j, d, None, e)
      ensures i == j
    {
      ChildrenApart(t, h, c1, c2, e.hub);
    }
  }

  /** An event below a child of h comes through that child's port. */
  lemma BelowIsViaPort(t: Forest, alive: set<ObjId>,
                       h: HubId, d: Data, handler: HandlerRef, e: Event) returns (j: IoId, c: HubId)
    requires Active(t.net, h)
    requires Legit(t.net, alive, d, handler, e) && Under(t, e.hub, h) && e.hub != h
    ensures j in t.net[h].table && ViaPort(t, alive, h, j, d, e)
    ensures c in t.net && Parent(t.net, c) == Some(h) && t.net[c].handlerId == j && Under(t, e.hub, c)
  {
    c := ChildOnTheWay(t, e.hub, h);
    j := t.net[c].handlerId;
    assert ChildAt(t.net, h, j, c);
    ExpectedBelow(t, alive, h, c, d, handler, e);
    ExpectedBelow(t, alive, h, c, d, None, e);
  }

  /** What comes through a port is legitimate, and either local or strictly below. */
  lemma ViaPortIsBelow(t: Forest, alive: set<ObjId>,
                       h: HubId, j: IoId, d: Data, handler: HandlerRef, e: Event)
    requires Active(t.net, h) && ViaPort(t, alive, h, j, d, e)
    ensures j in t.net[h].table && Legit(t.net, alive, d, handler, e) && Under(t, e.hub, h)
    ensures e.hub == h ==> e.Got? && e.port == j
    ensures e.hub != h ==> exists c :: ChildAt(t.net, h, j, c) && Parent(t.net, c) == Some(h) && Under(t, e.hub, c)
  {
    if c :| ChildAt(t.net, h, j, c) && Expected(t, alive, c, j, d, None, e) {
      ChildAtIsChild(t, h, j, c);
      ExpectedBelow(t, alive, h, c, d, handler, e);
      NotUnderChild(t, h, c);
      UnderTrans(t, e.hub, c, h);
    }
  }

  /** What passes the target is legitimate and not below h, or is the target's own event. */
  lemma ViaTargetIsAbove(t: Forest, alive: set<ObjId>,
                         h: HubId, d: Data, handler: HandlerRef, e: Event)
    requires Active(t.net, h)
    ensures ViaTarget(t, alive, h, d, handler, e) <==>
      && Legit(t.net, alive, d, handler, e)
      && Top(t, e.hub) == Top(t, h)
      && if Under(t, e.hub, h) then e.hub == h && e.Reached? else Parent(t.net, h).Some?
  {
    if Parent(t.net, h).Some? {
      ExpectedAbove(t, alive, h, Parent(t.net, h).value, d, handler, e);
    } else if Active(t.net, e.hub) {
      UnderTop(t, e.hub);
    }
  }

  /** Some port of `ports` other than the sender's gives rise to e. */
  ghost predicate ViaPorts(t: Forest, alive: set<ObjId>,
                           h: HubId, ioId: IoId, ports: set<IoId>, d: Data, e: Event)
    requires h in t.net
  {
    exists j :: j in ports && j != ioId && ViaPort(t, alive, h, j, d, e)
  }

  ghost predicate ViaTargetUnless(t: Forest, alive: set<ObjId>,
                                  h: HubId, ioId: IoId, d: Data, handler: HandlerRef, e: Event)
    requires h in t.net
  {
    t.net[h].handlerId != ioId && ViaTarget(t, alive, h, d, handler, e)
  }

  /** One hub splits the expected events into its own run, its ports and its target, and these
      three have nothing in common. */
  lemma Partition(t: Forest, alive: set<ObjId>,
                  h: HubId, ioId: IoId, d: Data, handler: HandlerRef, e: Event)
    requires Active(t.net, h)
    ensures var run := e == Ran(h);
      var ports := ViaPorts(t, alive, h, ioId, t.net[h].table.Keys, d, e);
      var up := ViaTargetUnless(t, alive, h, ioId, d, handler, e);
      && (Expected(t, alive, h, ioId, d, handler, e) <==> run || ports || up)
      && !(run && ports) && !(run && up) && !(ports && up)
  {
    ViaTargetIsAbove(t, alive, h, d, handler, e);
    forall j | ViaPort(t, alive, h, j, d, e)
      ensures j in t.net[h].table && Legit(t.net, alive, d, handler, e) && Under(t, e.hub, h)
      ensures e.hub == h ==> e.Got? && e.port == j
    {
      ViaPortIsBelow(t, alive, h, j, d, handler, e);
    }
    if Legit(t.net, alive, d, handler, e) {
      if Under(t, e.hub, h) {
        UnderDepth(t, e.hub, h);
        InsideSplit(t, alive, h, ioId, d, handler, e);
      } else {
        OutsideSplit(t, h, ioId, e.hub);
      }
    }
  }

  /** Below h: everything that does not come through the sender's port. */
  lemma InsideSplit(t: Forest, alive: set<ObjId>,
                    h: HubId, ioId: IoId, d: Data, handler: HandlerRef, e: Event)
    requires Active(t.net, h)
    requires Legit(t.net, alive, d, handler, e) && Under(t, e.hub, h)
    ensures Expected(t, alive, h, ioId, d, handler, e) <==>
      || e == Ran(h)
      || ViaPorts(t, alive, h, ioId, t.net[h].table.Keys, d, e)
      || (t.net[h].handlerId != ioId && e.hub == h && e.Reached?)
  {
    UnderDepth(t, e.hub, h);
    if e.hub == h {
      HereSplit(t, alive, h, ioId, d, handler, e);
    } else {
      var j, c := BelowIsViaPort(t, alive, h, d, handler, e);
      forall i | ViaPort(t, alive, h, i, d, e) ensures i == j {
        PortsApart(t, alive, h, i, j, d, e);
      }
      assert Behind(t, h, ioId, e.hub) <==> ioId == j by {
        forall b | b in t.net && Parent(t.net, b) == Some(h) && Under(t, e.hub, b) ensures b == c {
          ChildrenApart(t, h, b, c, e.hub);
        }
      }
    }
  }

  lemma HereSplit(t: Forest, alive: set<ObjId>,
                  h: HubId, ioId: IoId, d: Data, handler: HandlerRef, e: Event)
    requires Active(t.net, h) && Legit(t.net, alive, d, handler, e) && e.hub == h
    ensures Expected(t, alive, h, ioId, d, handler, e) <==>
      || e == Ran(h)
      || ViaPorts(t, alive, h, ioId, t.net[h].table.Keys, d, e)
      || (t.net[h].handlerId != ioId && e.Reached?)
  {
    forall c | c in t.net && Parent(t.net, c) == Some(h) ensures !Under(t, h, c) {
      NotUnderChild(t, h, c);
    }
    assert InRegion(t, h, ioId, h);
    forall j | ViaPort(t, alive, h, j, d, e) ensures e.Got? && e.port == j {
      ViaPortIsBelow(t, alive, h, j, d, handler, e);
    }
    if e.Got? {
      assert ViaPort(t, alive, h, e.port, d, e);
    }
  }

  /** Not below h: in the region exactly when the message goes up at all. */
  lemma OutsideSplit(t: Forest, h: HubId, ioId: IoId, k: HubId)
    requires Active(t.net, h) && Active(t.net, k) && !Under(t, k, h)
    ensures InRegion(t, h, ioId, k) <==>
      t.net[h].handlerId != ioId && Top(t, k) == Top(t, h)
    ensures Top(t, k) == Top(t, h) ==> Parent(t.net, h).Some?
    ensures !Behind(t, h, ioId, k)
  {
    forall c | c in t.net && Parent(t.net, c) == Some(h) && Under(t, k, c) ensures false {
      UnderTrans(t, k, c, h);
    }
    UnderTop(t, k);
  }
}
