/** Corollaries in the words of a user of the network. */
module HubTheorems {
  import opened Prelude
  import opened HubSpec
  import opened HubTree

  /** What flooding promises when `sender` is not the id of any hub's handler. */
  lemma FloodingMeansEveryoneElseOnce(t: Forest, alive: set<ObjId>, h: HubId, sender: IoId, d: Data,
                                      handler: HandlerRef, k: HubId)
    requires Active(t.net, h) && k in t.net
    requires forall x :: x in t.net ==> t.net[x].handlerId != sender
    ensures var inTree := Active(t.net, k) && Top(t, k) == Top(t, h);
      // every hub of the tree runs
      && (Expected(t, alive, h, sender, d, handler, Ran(k)) <==> inTree)
      // every live client of the tree but the sender gets exactly the data, from its own hub and
      // without a reply handler, and nobody else does
      && (forall j, c, x, g :: Expected(t, alive, h, sender, d, handler, Got(k, j, c, x, g)) <==>
            inTree && j in t.net[k].table && t.net[k].table[j] == ClientEnd(c) && c in alive && x == d && g == None
            && !(k == h && j == sender))
      // an outer target is reached from the root alone, with the data and the reply handler
      && (forall o, i, x, g :: Expected(t, alive, h, sender, d, handler, Reached(k, o, i, x, g)) <==>
            inTree && t.net[k].target == OuterTarget(o) && o in alive && i == t.net[k].handlerId
            && x == d && g == handler)
      && (inTree && t.net[k].target.OuterTarget? ==> k == Top(t, h))
  {
    assert !Behind(t, h, sender, k);
    UnderTop(t, k);
  }

  /** A link between a hub and its target cuts the tree in two: what goes up it reaches one half and
      what comes down it the other, each event on exactly one side, and neither side echoes. */
  lemma LinkCutsTheTree(t: Forest, alive: set<ObjId>, h: HubId, p: HubId, d: Data, handler: HandlerRef, e: Event)
    requires Active(t.net, h) && Parent(t.net, h) == Some(p)
    ensures var link := t.net[h].handlerId;
      var up, down := Expected(t, alive, p, link, d, handler, e), Expected(t, alive, h, link, d, handler, e);
      && !(up && down)
      && (up || down <==> Legit(t.net, alive, d, handler, e) && Top(t, e.hub) == Top(t, h))
      && (up || down ==> (down <==> Under(t, e.hub, h)))
  {
    ExpectedAbove(t, alive, h, p, d, handler, e);
    if Legit(t.net, alive, d, handler, e) && Under(t, e.hub, h) {
      UnderDepth(t, e.hub, h);
    }
  }
}
