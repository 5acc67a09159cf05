/** Nodes in different epochs catching up with each other over a network that may delay, reorder
    and repeat messages, and on which faulty nodes send what they like. */
module EpochCatchUp {
  import opened Options
  import opened ConsensusTypes
  import opened EpochChange
  import opened EpochManager

  datatype Packet = Packet(from: Author, to: Author, msg: Msg)

  /** `latest` is the epoch that the node's storage has reached: all earlier ones are sealed. */
  datatype Node = Node(epoch: nat, latest: nat)

  datatype World = World(nodes: map<Author, Node>, packets: set<Packet>)

  /** The epochs that really happened with their certificates, the signatures in existence, and
      the faulty nodes and validators. */
  datatype Setting = Setting(c: Chain, db: seq<Signed>, seals: Seals, byzantine: set<Author>)

  ghost predicate Sound(s: Setting) {
    HonestEndings(s.c, s.seals, s.byzantine) && Certified(s.c, s.db, s.seals) && |s.db| == |s.c.endings|
  }

  predicate NodeOk(s: Setting, n: Node) { 0 < n.epoch <= n.latest <= |s.db| }

  /** What an honest node does with a message. */
  function ReactAt(s: Setting, w: World, p: Packet): Reaction
    requires p.to in w.nodes && NodeOk(s, w.nodes[p.to]) && |s.c.states| > |s.db|
  {
    var n := w.nodes[p.to];
    React(s.c.states[n.epoch], p.to, s.db[..n.latest], s.seals, p.msg)
  }

  datatype Step =
    | Broadcast(from: Author, to: Author, role: Role)   // any message of the sender's epoch
    | Receive(p: Packet, notified: nat)                 // `notified`: the epoch announced after syncing
    | Commit(at: Author)                                // storage seals one more epoch
    | Faulty(p: Packet)

  function Max(a: nat, b: nat): nat { if a > b then a else b }

  /** Storage after syncing to an epoch-ending ledger info. */
  function Synced(n: Node, li: EpochLedgerInfo): nat { Max(n.latest, li.epoch + 1) }

  ghost predicate Enabled(s: Setting, w: World, step: Step) {
    match step
    case Broadcast(from, _, _) => from in w.nodes
    case Receive(p, notified) =>
      && p in w.packets && p.to in w.nodes && NodeOk(s, w.nodes[p.to]) && |s.c.states| > |s.db|
      && var r := ReactAt(s, w, p);
         // the notification is that of the ledger info synced to, or a later one
         r.Enter? ==> r.li.epoch < notified <= Synced(w.nodes[p.to], r.li) <= |s.db|
    case Commit(at) => at in w.nodes && w.nodes[at].latest < |s.db|
    case Faulty(p) => p.from in s.byzantine
  }

  function Do(s: Setting, w: World, step: Step): World
    requires Enabled(s, w, step)
  {
    match step
    case Broadcast(from, to, role) =>
      w.(packets := w.packets + {Packet(from, to, Event(w.nodes[from].epoch, role, false, true))})
    case Receive(p, notified) =>
      (match ReactAt(s, w, p)
       case Reply(msg) => w.(packets := w.packets + {Packet(p.to, p.from, msg)})
       case Enter(li) => w.(nodes := w.nodes[p.to := Node(notified, Synced(w.nodes[p.to], li))])
       case _ => w)
    case Commit(at) => w.(nodes := w.nodes[at := w.nodes[at].(latest := w.nodes[at].latest + 1)])
    case Faulty(p) => w.(packets := w.packets + {p})
  }

  ghost predicate Init(s: Setting, w: World) {
    && w.packets == {}
    && w.nodes.Keys !! s.byzantine
    && forall a :: a in w.nodes ==> NodeOk(s, w.nodes[a])
  }

  ghost predicate Run(s: Setting, worlds: seq<World>, steps: seq<Step>) {
    && |worlds| == |steps| + 1
    && Init(s, worlds[0])
    && forall i :: 0 <= i < |steps| ==> Enabled(s, worlds[i], steps[i]) && worlds[i + 1] == Do(s, worlds[i], steps[i])
  }

  // ---------------------------------------------------------------- the invariant

  ghost predicate NodesOk(s: Setting, w: World) {
    w.nodes.Keys !! s.byzantine && forall a :: a in w.nodes ==> NodeOk(s, w.nodes[a])
  }

  /** An honest message never claims an epoch its sender has not reached, and an honest request
      never asks for more than its addressee has claimed. */
  predicate PacketOk(w: World, p: Packet) {
    match p.msg
    case Event(epoch, _, _, _) => p.from in w.nodes ==> epoch <= w.nodes[p.from].epoch
    case Retrieval(start, end) => p.from in w.nodes && p.to in w.nodes ==> start < end <= w.nodes[p.to].epoch
    case _ => true
  }

  ghost predicate Inv(s: Setting, w: World) {
    NodesOk(s, w) && forall p :: p in w.packets ==> PacketOk(w, p)
  }

  /** No node is in an earlier epoch than before, and no storage has lost an epoch. */
  ghost predicate Onward(w: World, w': World) {
    && w'.nodes.Keys == w.nodes.Keys
    && forall a :: a in w.nodes ==>
         w.nodes[a].epoch <= w'.nodes[a].epoch && w.nodes[a].latest <= w'.nodes[a].latest
  }

  /** An accepted proof brings the node to a later epoch, one that really happened. */
  lemma EnterIsOnward(s: Setting, w: World, p: Packet)
    requires Sound(s) && p.to in w.nodes && NodeOk(s, w.nodes[p.to]) && ReactAt(s, w, p).Enter?
    ensures w.nodes[p.to].epoch <= ReactAt(s, w, p).li.epoch < |s.c.endings|
    ensures ReactAt(s, w, p).li.next == Some(s.c.states[ReactAt(s, w, p).li.epoch + 1])
  {
    var e := w.nodes[p.to].epoch;
    AcceptedProofIsSound(s.c, s.seals, s.byzantine, ByEpoch(s.c.states[e]), e, p.msg.lis);
  }

  lemma ReplyIsOk(s: Setting, w: World, p: Packet)
    requires Sound(s) && Inv(s, w) && p in w.packets && p.to in w.nodes && ReactAt(s, w, p).Reply?
    ensures PacketOk(w, Packet(p.to, p.from, ReactAt(s, w, p).msg))
  {
    assert PacketOk(w, p);
    if p.msg.Event? && p.from in w.nodes {
      assert p.msg.epoch <= w.nodes[p.from].epoch;
    }
  }

  lemma OnwardKeepsPackets(w: World, w': World)
    requires Onward(w, w') && forall p :: p in w.packets ==> PacketOk(w, p)
    ensures forall p :: p in w.packets ==> PacketOk(w', p)
  {
    forall p | p in w.packets ensures PacketOk(w', p) {
      assert PacketOk(w, p);
    }
  }

  lemma ReceiveKeepsInv(s: Setting, w: World, p: Packet, notified: nat)
    requires Sound(s) && Inv(s, w) && Enabled(s, w, Receive(p, notified))
    ensures Inv(s, Do(s, w, Receive(p, notified))) && Onward(w, Do(s, w, Receive(p, notified)))
  {
    var w' := Do(s, w, Receive(p, notified));
    var r := ReactAt(s, w, p);
    if r.Reply? {
      ReplyIsOk(s, w, p);
    } else if r.Enter? {
      EnterIsOnward(s, w, p);
    }
    OnwardKeepsPackets(w, w');
  }

  lemma StepKeepsInv(s: Setting, w: World, step: Step)
    requires Sound(s) && Inv(s, w) && Enabled(s, w, step)
    ensures Inv(s, Do(s, w, step)) && Onward(w, Do(s, w, step))
  {
    if step.Receive? {
      ReceiveKeepsInv(s, w, step.p, step.notified);
    } else {
      OnwardKeepsPackets(w, Do(s, w, step));
    }
  }

  lemma {:induction false} RunHasInv(s: Setting, worlds: seq<World>, steps: seq<Step>, n: nat)
    requires Sound(s) && Run(s, worlds, steps) && n < |worlds|
    ensures Inv(s, worlds[n])
  {
    if n > 0 {
      RunHasInv(s, worlds, steps, n - 1);
      StepKeepsInv(s, worlds[n - 1], steps[n - 1]);
    }
  }

  // ---------------------------------------------------------------- what every run keeps

  /** No node's epoch ever decreases, and no storage ever loses one. */
  lemma EpochsNeverDecrease(s: Setting, worlds: seq<World>, steps: seq<Step>, m: nat, n: nat)
    requires Sound(s) && Run(s, worlds, steps) && m <= n < |worlds|
    ensures Onward(worlds[m], worlds[n])
  {
    forall i | 0 <= i < |steps| ensures Onward(worlds[i], worlds[i + 1]) {
      StepIsOnward(s, worlds, steps, i);
    }
    OnwardFromTo(worlds, m, n);
  }

  lemma {:induction false} OnwardFromTo(worlds: seq<World>, m: nat, n: nat)
    requires m <= n < |worlds| && forall i :: 0 <= i < |worlds| - 1 ==> Onward(worlds[i], worlds[i + 1])
    ensures Onward(worlds[m], worlds[n])
  {
    if m < n {
      OnwardFromTo(worlds, m, n - 1);
      assert Onward(worlds[n - 1], worlds[n - 1 + 1]);
      OnwardTransitive(worlds[m], worlds[n - 1], worlds[n]);
    }
  }

  lemma StepIsOnward(s: Setting, worlds: seq<World>, steps: seq<Step>, i: nat)
    requires Sound(s) && Run(s, worlds, steps) && i < |steps|
    ensures Onward(worlds[i], worlds[i + 1])
  {
    RunHasInv(s, worlds, steps, i);
    StepKeepsInv(s, worlds[i], steps[i]);
  }

  lemma OnwardTransitive(a: World, b: World, c: World)
    requires Onward(a, b) && Onward(b, c)
    ensures Onward(a, c)
  {
  }

  /** A request between honest nodes is always answered, with a page that starts at the requested
      epoch: it is never beyond what the addressee has, however late it arrives. */
  lemma RequestsAreServed(s: Setting, worlds: seq<World>, steps: seq<Step>, n: nat, p: Packet)
    requires Sound(s) && Run(s, worlds, steps) && n < |worlds|
    requires p in worlds[n].packets && p.from in worlds[n].nodes && p.to in worlds[n].nodes && p.msg.Retrieval?
    ensures NodeOk(s, worlds[n].nodes[p.to])
    ensures var r := ReactAt(s, worlds[n], p);
            r.Reply? && r.msg.Proof? && r.msg.lis != [] && r.msg.lis[0].li.epoch == p.msg.start
  {
    RunHasInv(s, worlds, steps, n);
    assert PacketOk(worlds[n], p) && NodeOk(s, worlds[n].nodes[p.to]);
    assert s.c.IsEpoch(worlds[n].nodes[p.to].epoch);
    assert Sealed(s.c, s.db, s.seals, p.msg.start) && s.c.Ends(p.msg.start);
  }

  /** A stale or repeated proof, one that starts elsewhere than in the node's epoch, changes nothing. */
  lemma StaleProofChangesNothing(s: Setting, w: World, p: Packet, notified: nat)
    requires Sound(s) && Inv(s, w) && Enabled(s, w, Receive(p, notified)) && p.msg.Proof?
    requires p.msg.lis == [] || p.msg.lis[0].li.epoch != w.nodes[p.to].epoch
    ensures Do(s, w, Receive(p, notified)) == w
  {
    assert s.c.IsEpoch(w.nodes[p.to].epoch);
  }

  /** In every run, a proof that changes anything starts in the epoch of the node it reaches, and
      brings this node, and no other, to a later epoch. */
  lemma ProofsOnlyAdvance(s: Setting, worlds: seq<World>, steps: seq<Step>, n: nat)
    requires Sound(s) && Run(s, worlds, steps) && n < |steps| && steps[n].Receive? && steps[n].p.msg.Proof?
    requires worlds[n + 1] != worlds[n]
    ensures var p, w, w' := steps[n].p, worlds[n], worlds[n + 1];
            && p.to in w.nodes && p.to in w'.nodes
            && p.msg.lis != [] && p.msg.lis[0].li.epoch == w.nodes[p.to].epoch < w'.nodes[p.to].epoch
            && w' == w.(nodes := w.nodes[p.to := w'.nodes[p.to]])
  {
    RunHasInv(s, worlds, steps, n);
    var p, w := steps[n].p, worlds[n];
    assert NodeOk(s, w.nodes[p.to]);
    if p.msg.lis == [] || p.msg.lis[0].li.epoch != w.nodes[p.to].epoch {
      StaleProofChangesNothing(s, w, p, steps[n].notified);
    } else {
      EnterIsOnward(s, w, p);
    }
  }

  /** The same proof is never accepted twice by a node. */
  lemma NoProofTwice(s: Setting, worlds: seq<World>, steps: seq<Step>, m: nat, n: nat, p: Packet)
    requires Sound(s) && Run(s, worlds, steps) && m < n < |steps|
    requires steps[m].Receive? && steps[m].p == p && steps[n].Receive? && steps[n].p == p && p.msg.Proof?
    requires worlds[m + 1].nodes != worlds[m].nodes
    ensures worlds[n + 1] == worlds[n]
  {
    RunHasInv(s, worlds, steps, m);
    RunHasInv(s, worlds, steps, n);
    EnterIsOnward(s, worlds[m], p);
    EpochsNeverDecrease(s, worlds, steps, m + 1, n);
    StaleProofChangesNothing(s, worlds[n], p, steps[n].notified);
  }

  /** Where the answer to a request leads: to its end, or a page of 100 epochs further on. */
  function Target(start: nat, end: nat): nat { if end - start > 100 then start + 100 else end }

  /** The page that answers a request is accepted by a node in the epoch it starts with. */
  lemma PageIsAccepted(s: Setting, w: World, w': World, p: Packet)
    requires Sound(s) && Inv(s, w) && Inv(s, w') && p in w.packets && p.msg.Retrieval?
    requires p.from in w.nodes && p.to in w.nodes && p.from in w'.nodes && w'.nodes[p.from].epoch == p.msg.start
    ensures var answer := ReactAt(s, w, p);
            && answer.Reply?
            && var r := ReactAt(s, w', Packet(p.to, p.from, answer.msg));
               r.Enter? && r.li.epoch + 1 == Target(p.msg.start, p.msg.end)
  {
    assert PacketOk(w, p);
    var start, end, server := p.msg.start, p.msg.end, w.nodes[p.to];
    assert NodeOk(s, server) && NodeOk(s, w'.nodes[p.from]);
    assert s.c.IsEpoch(start) && s.c.IsEpoch(server.epoch);
    CertifiedPrefix(s.c, s.db, s.seals, server.latest);
    assert Sealed(s.c, s.db, s.seals, start) && s.c.Ends(start);
    assert s.c.Ends(Target(start, end) - 1);
    ServedPageIsAccepted(s.c, s.db[..server.latest], s.seals, ByEpoch(s.c.states[start]), start, start, end, 100);
  }

  /** In every run, the answer to a request catches a node up, however late it arrives: if the node
      still is in the epoch it asked from, it accepts the page, and is then in the requested epoch
      or a whole page of epochs further on, or later. */
  lemma AnswerCatchesUp(s: Setting, worlds: seq<World>, steps: seq<Step>, m: nat, n: nat, p: Packet)
    requires Sound(s) && Run(s, worlds, steps) && m <= n < |worlds|
    requires p in worlds[m].packets && p.msg.Retrieval? && p.from in worlds[m].nodes && p.to in worlds[m].nodes
    requires p.from in worlds[n].nodes && worlds[n].nodes[p.from].epoch == p.msg.start
    ensures NodeOk(s, worlds[m].nodes[p.to]) && NodeOk(s, worlds[n].nodes[p.from])
    ensures var answer := ReactAt(s, worlds[m], p);
            && answer.Reply?
            && var packet := Packet(p.to, p.from, answer.msg);
               var r := ReactAt(s, worlds[n], packet);
               && r.Enter? && r.li.epoch + 1 == Target(p.msg.start, p.msg.end)
               && (n < |steps| && steps[n].Receive? && steps[n].p == packet ==>
                     p.from in worlds[n + 1].nodes &&
                       Target(p.msg.start, p.msg.end) <= worlds[n + 1].nodes[p.from].epoch)
  {
    RunHasInv(s, worlds, steps, m);
    RunHasInv(s, worlds, steps, n);
    PageIsAccepted(s, worlds[m], worlds[n], p);
  }

  // ---------------------------------------------------------------- from an event to catching up

  lemma {:induction false} PacketsStay(s: Setting, worlds: seq<World>, steps: seq<Step>, m: nat, n: nat)
    requires Run(s, worlds, steps) && m <= n < |worlds|
    ensures worlds[m].packets <= worlds[n].packets && worlds[n].nodes.Keys == worlds[m].nodes.Keys
  {
    if m < n {
      PacketsStay(s, worlds, steps, m, n - 1);
      assert Enabled(s, worlds[n - 1], steps[n - 1]);
    }
  }

  /** The step at `k` is the receipt of this packet. */
  ghost predicate Receives(steps: seq<Step>, k: nat, p: Packet) {
    k < |steps| && steps[k].Receive? && steps[k].p == p
  }

  /** A message from a later epoch makes a node ask its sender for the epochs from its own up to that
      one, and changes nothing else. */
  lemma EventAsks(s: Setting, worlds: seq<World>, steps: seq<Step>, k: nat, e: Packet)
    requires Sound(s) && Run(s, worlds, steps) && Receives(steps, k, e) && e.msg.Event?
    requires e.to in worlds[k].nodes && e.msg.epoch > worlds[k].nodes[e.to].epoch
    ensures var request := Packet(e.to, e.from, Retrieval(worlds[k].nodes[e.to].epoch, e.msg.epoch));
            worlds[k + 1] == worlds[k].(packets := worlds[k].packets + {request})
  {
    RunHasInv(s, worlds, steps, k);
    assert s.c.IsEpoch(worlds[k].nodes[e.to].epoch);
  }

  /** A request for epochs beyond the addressee's own, or for an interval that ends before it starts, is
      not answered, whoever sends it. */
  lemma BadRequestIsRejected(s: Setting, worlds: seq<World>, steps: seq<Step>, k: nat, p: Packet)
    requires Sound(s) && Run(s, worlds, steps) && Receives(steps, k, p) && p.msg.Retrieval?
    requires p.to in worlds[k].nodes && (p.msg.end > worlds[k].nodes[p.to].epoch || p.msg.start > p.msg.end)
    ensures worlds[k + 1] == worlds[k]
  {
    RunHasInv(s, worlds, steps, k);
    assert NodeOk(s, worlds[k].nodes[p.to]) && s.c.IsEpoch(worlds[k].nodes[p.to].epoch);
  }

  lemma SliceOfPrefix<T>(s: seq<T>, n: nat, i: nat, j: nat)
    requires i <= j <= n <= |s|
    ensures s[..n][i..j] == s[i..j]
  {
  }

  /** A message from an earlier epoch makes a node that is no validator send its sender the proof for
      the epochs from that one on, and a validator ignores it. */
  lemma EarlierEventIsServed(s: Setting, worlds: seq<World>, steps: seq<Step>, k: nat, e: Packet)
    requires Sound(s) && Run(s, worlds, steps) && Receives(steps, k, e) && e.msg.Event?
    requires e.to in worlds[k].nodes && e.msg.epoch < worlds[k].nodes[e.to].epoch
    ensures var n := worlds[k].nodes[e.to];
            var page := Packet(e.to, e.from, Proof(s.db[e.msg.epoch..Target(e.msg.epoch, n.epoch)]));
            && n.epoch < |s.c.states|
            && worlds[k + 1] ==
                 if e.to in s.c.states[n.epoch].verifier.Authors() then worlds[k]
                 else worlds[k].(packets := worlds[k].packets + {page})
  {
    RunHasInv(s, worlds, steps, k);
    var n := worlds[k].nodes[e.to];
    assert NodeOk(s, n) && s.c.IsEpoch(n.epoch);
    SliceOfPrefix(s.db, n.latest, e.msg.epoch, Target(e.msg.epoch, n.epoch));
  }

  /** In every run: a node that gets a message from a later epoch asks its sender, the sender answers,
      and the answer brings the node to the epoch of the message or a page further, or later, if it
      still is where it was. However late each of the three packets arrives, and whatever happens in
      between. */
  lemma EventCatchesUp(
    s: Setting, worlds: seq<World>, steps: seq<Step>, k: nat, m: nat, n: nat, e: Packet)
    returns (request: Packet, answer: Packet)
    requires Sound(s) && Run(s, worlds, steps) && k < m < n < |steps|
    requires Receives(steps, k, e) && e.msg.Event? && e.from in worlds[k].nodes && e.to in worlds[k].nodes
    requires e.msg.epoch > worlds[k].nodes[e.to].epoch
    ensures request == Packet(e.to, e.from, Retrieval(worlds[k].nodes[e.to].epoch, e.msg.epoch))
    ensures request in worlds[k + 1].packets && answer.from == e.from && answer.to == e.to
    ensures Receives(steps, m, request) ==> answer in worlds[m + 1].packets && answer.msg.Proof?
    ensures Receives(steps, m, request) && Receives(steps, n, answer) && e.to in worlds[n].nodes
            && worlds[n].nodes[e.to].epoch == worlds[k].nodes[e.to].epoch ==>
              && e.to in worlds[n + 1].nodes
              && Target(worlds[k].nodes[e.to].epoch, e.msg.epoch) <= worlds[n + 1].nodes[e.to].epoch
  {
    EventAsks(s, worlds, steps, k, e);
    request := Packet(e.to, e.from, Retrieval(worlds[k].nodes[e.to].epoch, e.msg.epoch));
    answer := Packet(e.from, e.to, Unexpected);
    PacketsStay(s, worlds, steps, k, m);
    PacketsStay(s, worlds, steps, k + 1, m);
    PacketsStay(s, worlds, steps, k, n);
    if Receives(steps, m, request) {
      RequestsAreServed(s, worlds, steps, m, request);
      answer := Packet(e.from, e.to, ReactAt(s, worlds[m], request).msg);
      if worlds[n].nodes[e.to].epoch == worlds[k].nodes[e.to].epoch {
        AnswerCatchesUp(s, worlds, steps, m, n, request);
      }
    }
  }
}
