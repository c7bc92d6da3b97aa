/** The in-memory context graph as an object (psync/graph.go). Nodes refer to each other
    by key; the two-level sender/sequence dictionary is one dictionary by key. */
module Graph {
  import opened Basics
  import opened Vectors
  import opened Causality

  datatype Node = Node(env: Envelope, senderSeq: nat, senderSlot: int, wave: nat, parents: seq<Key>, children: seq<Key>)

  datatype InsertResult =
    | Inserted(node: Node)
    | AlreadyPresent(node: Node)
    | MissingParents(missing: seq<Key>)
    | UnknownSender
    | MalformedVector

  /** The predecessors named by the first n slots, in slot order. */
  function ParentList(ms: seq<ReplicaId>, e: Envelope, n: nat): seq<Key>
    requires n <= |ms|
  {
    if n == 0 then []
    else
      var rest := ParentList(ms, e, n - 1);
      if Required(ms, e, n - 1) > 0 then rest + [Key(ms[n - 1], Required(ms, e, n - 1))] else rest
  }

  /** Those of them that are absent. */
  function MissingList(ms: seq<ReplicaId>, present: set<Key>, e: Envelope, n: nat): seq<Key>
    requires n <= |ms|
  {
    if n == 0 then []
    else
      var rest := MissingList(ms, present, e, n - 1);
      var k := Key(ms[n - 1], Required(ms, e, n - 1));
      if Required(ms, e, n - 1) > 0 && k !in present then rest + [k] else rest
  }

  /** Those of them that are present. */
  function PresentList(ms: seq<ReplicaId>, present: set<Key>, e: Envelope, n: nat): seq<Key>
    requires n <= |ms|
  {
    if n == 0 then []
    else
      var rest := PresentList(ms, present, e, n - 1);
      var k := Key(ms[n - 1], Required(ms, e, n - 1));
      if Required(ms, e, n - 1) > 0 && k in present then rest + [k] else rest
  }

  lemma {:induction false} NoneMissing(ms: seq<ReplicaId>, present: set<Key>, e: Envelope, n: nat)
    requires n <= |ms| && MissingList(ms, present, e, n) == []
    ensures PresentList(ms, present, e, n) == ParentList(ms, e, n)
  {
    if n > 0 { NoneMissing(ms, present, e, n - 1); }
  }

  lemma {:induction false} ParentListElements(ms: seq<ReplicaId>, e: Envelope, n: nat, k: Key)
    requires n <= |ms|
    ensures k in ParentList(ms, e, n) <==>
      exists i: nat :: i < n && Required(ms, e, i) > 0 && k == Key(ms[i], Required(ms, e, i))
  {
    if n > 0 { ParentListElements(ms, e, n - 1, k); }
  }

  lemma {:induction false} MissingListElements(ms: seq<ReplicaId>, present: set<Key>, e: Envelope, n: nat, k: Key)
    requires n <= |ms|
    ensures k in MissingList(ms, present, e, n) <==> k in ParentList(ms, e, n) && k !in present
  {
    if n > 0 { MissingListElements(ms, present, e, n - 1, k); }
  }

  lemma ParentListIsParents(ms: seq<ReplicaId>, e: Envelope)
    ensures forall k :: k in ParentList(ms, e, |ms|) <==> k in Parents(ms, e)
  {
    forall k ensures k in ParentList(ms, e, |ms|) <==> k in Parents(ms, e) {
      ParentListElements(ms, e, |ms|, k);
    }
  }

  lemma MissingListIsMissing(ms: seq<ReplicaId>, present: set<Key>, e: Envelope)
    ensures forall k :: k in MissingList(ms, present, e, |ms|) <==> k in Parents(ms, e) && k !in present
  {
    ParentListIsParents(ms, e);
    forall k ensures k in MissingList(ms, present, e, |ms|) <==> k in Parents(ms, e) && k !in present {
      MissingListElements(ms, present, e, |ms|, k);
    }
  }

  lemma {:induction false} ParentListDistinct(ms: seq<ReplicaId>, e: Envelope, n: nat)
    requires Distinct(ms) && n <= |ms|
    ensures NoDuplicates(ParentList(ms, e, n))
    ensures forall k :: k in ParentList(ms, e, n) ==> exists i: nat :: i < n && ms[i] == k.sender
  {
    if n > 0 {
      ParentListDistinct(ms, e, n - 1);
    }
  }

  function KeyList(ms: seq<ReplicaId>, h: seq<Envelope>): seq<Key> {
    seq(|h|, i requires 0 <= i < |h| => KeyOf(ms, h[i]))
  }

  /** c lists, once each, the nodes that name k as a predecessor. */
  ghost predicate IsChildList(ms: seq<ReplicaId>, envs: Nodes, k: Key, c: seq<Key>) {
    NoDuplicates(c) && forall x :: x in c <==> x in envs && k in Parents(ms, envs[x])
  }

  ghost predicate IsNode(ms: seq<ReplicaId>, envs: Nodes, k: Key, n: Node) {
    && k in envs
    && n.env == envs[k]
    && n.senderSeq == k.num
    && n.senderSlot == SlotOf(ms, k.sender)
    && n.wave == Wave(n.env.vc)
    && n.parents == ParentList(ms, n.env, |ms|)
    && IsChildList(ms, envs, k, n.children)
  }

  ghost predicate AreNodes(ms: seq<ReplicaId>, envs: Nodes, nodes: map<Key, Node>) {
    && nodes.Keys == envs.Keys
    && forall k {:trigger IsNode(ms, envs, k, nodes[k])} :: k in nodes ==> IsNode(ms, envs, k, nodes[k])
  }

  ghost predicate IsWaveIndex(ms: seq<ReplicaId>, h: seq<Envelope>, byWave: map<nat, seq<Key>>) {
    forall w: nat {:trigger WaveList(h, w)} ::
      && (w in byWave <==> WaveList(h, w) != [])
      && (w in byWave ==> byWave[w] == KeyList(ms, WaveList(h, w)))
  }

  class Graph {
    const members: seq<ReplicaId>
    var nodes: map<Key, Node>
    var byWave: map<nat, seq<Key>>
    var count: nat
    /** The inserted envelopes in insertion order. */
    ghost var history: seq<Envelope>

    ghost function Envs(): Nodes
      reads this
    {
      Index(members, history)
    }

    /** The node records are those of the history. */
    ghost predicate Linked()
      reads this
    {
      && Distinct(members)
      && Causal(members, history)
      && AreNodes(members, Envs(), nodes)
    }

    ghost predicate Valid()
      reads this
    {
      && Linked()
      && IsWaveIndex(members, history, byWave)
      && count == |history|
    }

    constructor (members: seq<ReplicaId>)
      requires Distinct(members)
      ensures Valid() && this.members == members && history == []
    {
      this.members := members;
      nodes, byWave, count := map[], map[], 0;
      history := [];
    }

    predicate Has(k: Key)
      reads this
    {
      k in nodes
    }

    function Lookup(k: Key): Option<Node>
      reads this
    {
      if k in nodes then Some(nodes[k]) else None
    }

    /** Appends a child to each listed node. */
    method AddChild(parents: seq<Key>, child: Key)
      requires NoDuplicates(parents) && forall p :: p in parents ==> p in nodes
      modifies this`nodes
      ensures nodes.Keys == old(nodes.Keys)
      ensures forall k :: k in nodes ==>
        nodes[k] == if k in parents then old(nodes)[k].(children := old(nodes)[k].children + [child]) else old(nodes)[k]
    {
      var i := 0;
      while i < |parents|
        invariant 0 <= i <= |parents|
        invariant nodes.Keys == old(nodes.Keys)
        invariant forall k :: k in nodes ==>
          nodes[k] ==
            if k in parents[..i] then old(nodes)[k].(children := old(nodes)[k].children + [child]) else old(nodes)[k]
      {
        var p := parents[i];
        assert p in old(nodes);
        assert p !in parents[..i];
        nodes := nodes[p := nodes[p].(children := nodes[p].children + [child])];
        assert parents[..i + 1] == parents[..i] + [p];
        i := i + 1;
      }
      assert parents[..i] == parents;
    }

    method FindParents(env: Envelope) returns (parents: seq<Key>, missing: seq<Key>)
      ensures missing == MissingList(members, nodes.Keys, env, |members|)
      ensures parents == PresentList(members, nodes.Keys, env, |members|)
    {
      parents, missing := [], [];
      var slot := SlotOf(members, env.sender);
      var i := 0;
      while i < |members|
        invariant 0 <= i <= |members|
        invariant missing == MissingList(members, nodes.Keys, env, i)
        invariant parents == PresentList(members, nodes.Keys, env, i)
      {
        var required := 0;
        if i == slot {
          if SeqOf(members, env) > 1 { required := SeqOf(members, env) - 1; }
        } else {
          required := At(env.vc, i);
        }
        if required > 0 {
          var k := Key(members[i], required);
          if k !in nodes {
            missing := missing + [k];
          } else {
            parents := parents + [k];
          }
        }
        i := i + 1;
      }
    }

    method LinkNode(env: Envelope, parents: seq<Key>, wave: nat) returns (node: Node)
      requires Valid() && Admissible(members, Envs(), env)
      requires parents == ParentList(members, env, |members|) && wave == Wave(env.vc)
      modifies this`nodes
      ensures AreNodes(members, Envs()[KeyOf(members, env) := env], nodes) && node == nodes[KeyOf(members, env)]
    {
      ghost var before := nodes;
      var key := KeyOf(members, env);
      ParentListIsParents(members, env);
      ParentListDistinct(members, env, |members|);
      AddChild(parents, key);
      node := Node(env, SeqOf(members, env), SlotOf(members, env.sender), wave, parents, []);
      nodes := nodes[key := node];
      CausalIsClosed(members, history);
      InsertKeepsNodes(members, Envs(), env, before, nodes);
    }

    /** Files a node whose predecessors are all present. */
    method Link(env: Envelope, parents: seq<Key>) returns (node: Node)
      requires Valid() && Admissible(members, Envs(), env)
      requires parents == ParentList(members, env, |members|)
      modifies this
      ensures Valid() && history == old(history) + [env]
      ensures KeyOf(members, env) in nodes && node == nodes[KeyOf(members, env)]
    {
      var wave := WaveOf(env.vc);
      node := LinkNode(env, parents, wave);
      byWave := byWave[wave := (if wave in byWave then byWave[wave] else []) + [KeyOf(members, env)]];
      count := count + 1;
      CausalExtend(members, history, env);
      InsertKeepsWaves(members, history, env, old(byWave), byWave);
      history := history + [env];
      assert AreNodes(members, Envs(), nodes);
    }

    /** Adds env when all its causal predecessors are present; otherwise says why not and
        changes nothing. */
    method Insert(env: Envelope) returns (r: InsertResult)
      requires Valid()
      modifies this
      ensures Valid()
      ensures r.UnknownSender? <==> SlotOf(members, env.sender) < 0
      ensures r.AlreadyPresent? <==> Stamped(members, env) && KeyOf(members, env) in old(Envs())
      ensures r.AlreadyPresent? ==> r.node.env == old(Envs())[KeyOf(members, env)]
      ensures r.MissingParents? ==> Lacks(members, old(Envs()), env) && r.missing == WaitList(members, old(Envs()), env)
      ensures Lacks(members, old(Envs()), env) ==> r.MissingParents?
      ensures r.Inserted? <==> Admissible(members, old(Envs()), env)
      ensures r.Inserted? ==>
        history == old(history) + [env] && KeyOf(members, env) in nodes && r.node == nodes[KeyOf(members, env)]
      ensures !r.Inserted? ==> unchanged(this)
    {
      var slot := SlotOf(members, env.sender);
      if slot < 0 { return UnknownSender; }
      if slot >= |env.vc| { return MalformedVector; }
      var senderSeq := env.vc[slot];
      if senderSeq == 0 { return MalformedVector; }
      var key := Key(env.sender, senderSeq);
      if key in nodes {
        assert IsNode(members, Envs(), key, nodes[key]);
        return AlreadyPresent(nodes[key]);
      }
      if |env.vc| > |members| {
        if senderSeq <= 1 { return MalformedVector; }
        return MissingParents([Key(env.sender, senderSeq - 1)]);
      }
      var parents, missing := FindParents(env);
      WaitListEmpty(members, Envs(), env);
      if |missing| > 0 { return MissingParents(missing); }
      NoneMissing(members, nodes.Keys, env, |members|);
      var node := Link(env, parents);
      return Inserted(node);
    }
  
    /** The highest sequence number of r, found by scanning the dictionary. */
    method LatestSeq(r: ReplicaId) returns (n: nat)
      requires Linked()
      ensures n == Latest(Envs(), r)
    {
      n := 0;
      var todo := nodes.Keys;
      while todo != {}
        invariant todo <= nodes.Keys
        invariant forall k :: k in nodes && k !in todo && k.sender == r ==> k.num <= n
        invariant n > 0 ==> Key(r, n) in nodes
        decreases todo
      {
        var k :| k in todo;
        if k.sender == r && k.num > n { n := k.num; }
        todo := todo - {k};
      }
      var m := Latest(Envs(), r);
      assert m > 0 ==> Key(r, m) in nodes;
      assert Key(r, n) in nodes ==> n <= m;
    }

    /** The messages of wave w in insertion order. */
    method MessagesInWave(w: nat) returns (out: seq<Envelope>)
      requires Valid()
      ensures out == WaveList(history, w)
    {
      var keys := if w in byWave then byWave[w] else [];
      ghost var list := WaveList(history, w);
      out := [];
      while |out| < |keys|
        invariant |out| <= |keys| == |list|
        invariant out == list[..|out|]
      {
        var i := |out|;
        WaveListNode(members, history, w, i);
        assert keys[i] == KeyOf(members, list[i]);
        assert IsNode(members, Envs(), keys[i], nodes[keys[i]]);
        out := out + [nodes[keys[i]].env];
      }
    }

    /** The nodes nobody names as a predecessor. */
    method Leaves() returns (out: seq<Key>)
      requires Linked()
      ensures NoDuplicates(out)
      ensures forall k :: k in out <==> IsLeaf(members, Envs(), k)
    {
      out := [];
      var todo := nodes.Keys;
      while todo != {}
        invariant todo <= nodes.Keys
        invariant NoDuplicates(out)
        invariant forall k :: k in out <==> k in nodes && k !in todo && nodes[k].children == []
        decreases todo
      {
        var k :| k in todo;
        if |nodes[k].children| == 0 { out := out + [k]; }
        todo := todo - {k};
      }
      forall k | k in nodes ensures nodes[k].children == [] <==> IsLeaf(members, Envs(), k) {
        LeafByChildren(members, Envs(), k, nodes[k]);
      }
    }

    /** Raises the view by the latest message of one member. */
    method Absorb(view: Vector, slot: nat) returns (out: Vector)
      requires Linked() && slot < |members| && |view| == |members| && Leq(view, View(members, Envs()))
      ensures |out| == |members| && Leq(view, out) && Leq(out, View(members, Envs()))
      ensures At(out, slot) == At(View(members, Envs()), slot)
    {
      var latest := LatestSeq(members[slot]);
      out := view;
      if latest > 0 {
        var k := Key(members[slot], latest);
        LatestNode(members, history, slot);
        assert IsNode(members, Envs(), k, nodes[k]);
        out := Max(view, nodes[k].env.vc);
      }
    }

    /** The clock of everything seen: the component-wise maximum over the latest message
        of each member. */
    method CurrentView() returns (out: Vector)
      requires Linked()
      ensures out == View(members, Envs())
    {
      out := seq(|members|, _ => 0);
      var slot := 0;
      while slot < |members|
        invariant 0 <= slot <= |members|
        invariant |out| == |members| && Leq(out, View(members, Envs()))
        invariant forall i: nat :: i < slot ==> At(out, i) == At(View(members, Envs()), i)
      {
        out := Absorb(out, slot);
        slot := slot + 1;
      }
      SameView(out, View(members, Envs()));
    }
  }

  lemma WaveListNode(ms: seq<ReplicaId>, h: seq<Envelope>, w: nat, i: nat)
    requires Causal(ms, h) && i < |WaveList(h, w)|
    ensures var e := WaveList(h, w)[i];
      KeyOf(ms, e) in Index(ms, h) && Index(ms, h)[KeyOf(ms, e)] == e && Wave(e.vc) == w
  {
    WaveListElements(h, w);
    var n :| 0 <= n < |h| && h[n] == WaveList(h, w)[i];
    CausalLookup(ms, h, n);
  }

  lemma SameView(a: Vector, b: Vector)
    requires |a| == |b| && forall i: nat :: i < |a| ==> At(a, i) == At(b, i)
    ensures a == b
  {
    assert forall i :: 0 <= i < |a| ==> a[i] == At(a, i) == At(b, i) == b[i];
  }

  /** A member's latest message carries its own number and is within the view. */
  lemma LatestNode(ms: seq<ReplicaId>, h: seq<Envelope>, slot: nat)
    requires Distinct(ms) && Causal(ms, h) && slot < |ms| && Latest(Index(ms, h), ms[slot]) > 0
    ensures var envs := Index(ms, h); var n := Latest(envs, ms[slot]); var k := Key(ms[slot], n);
      && k in envs && |envs[k].vc| <= |ms|
      && At(envs[k].vc, slot) == n == At(View(ms, envs), slot)
      && Leq(envs[k].vc, View(ms, envs))
  {
    var envs := Index(ms, h);
    var k := Key(ms[slot], Latest(envs, ms[slot]));
    CausalIsClosed(ms, h);
    assert KeyOf(ms, envs[k]) == k;
    assert SlotOf(ms, ms[slot]) == slot;
    ViewCovers(ms, envs, k);
  }

  ghost predicate IsLeaf(ms: seq<ReplicaId>, envs: Nodes, k: Key) {
    k in envs && forall x :: x in envs ==> k !in Parents(ms, envs[x])
  }

  lemma LeafByChildren(ms: seq<ReplicaId>, envs: Nodes, k: Key, n: Node)
    requires IsNode(ms, envs, k, n)
    ensures n.children == [] <==> IsLeaf(ms, envs, k)
  {
    if n.children != [] { assert n.children[0] in n.children; }
  }

  /** env is new and well formed but cannot be inserted yet. */
  predicate Lacks(ms: seq<ReplicaId>, envs: Nodes, e: Envelope) {
    && Stamped(ms, e)
    && KeyOf(ms, e) !in envs
    && (if Fits(ms, e) then !(Parents(ms, e) <= envs.Keys) else SeqOf(ms, e) > 1)
  }

  /** What such an envelope waits for: its absent predecessors in slot order, or the
      sender's previous message when its clock is longer than the member list. */
  function WaitList(ms: seq<ReplicaId>, envs: Nodes, e: Envelope): seq<Key> {
    if Fits(ms, e) then MissingList(ms, envs.Keys, e, |ms|)
    else if SeqOf(ms, e) > 0 then [Key(e.sender, SeqOf(ms, e) - 1)] else []
  }

  /** In terms of the clock itself. */
  lemma LacksExactly(ms: seq<ReplicaId>, envs: Nodes, e: Envelope)
    ensures Lacks(ms, envs, e) <==>
      var s := SlotOf(ms, e.sender);
      && 0 <= s < |e.vc| && e.vc[s] > 0
      && Key(e.sender, e.vc[s]) !in envs
      && (if |e.vc| > |ms| then e.vc[s] > 1 else !Admissible(ms, envs, e))
    ensures Lacks(ms, envs, e) && |e.vc| > |ms| ==>
      WaitList(ms, envs, e) == [Key(e.sender, e.vc[SlotOf(ms, e.sender)] - 1)]
  {
  }

  /** A fitting envelope waits for k: an absent message that entry i of its clock names, the
      own entry naming the one before. */
  lemma AwaitedExactly(ms: seq<ReplicaId>, envs: Nodes, e: Envelope, k: Key)
    requires Lacks(ms, envs, e) && Fits(ms, e)
    ensures k in WaitList(ms, envs, e) <==>
      && k !in envs && k.num > 0
      && (exists i :: 0 <= i < |e.vc| && k.sender == ms[i] && e.vc[i] ==
              if i == SlotOf(ms, e.sender) then k.num + 1 else k.num)
  {
    MissingListElements(ms, envs.Keys, e, |ms|, k);
    ParentListElements(ms, e, |ms|, k);
    if i: nat :| i < |ms| && Required(ms, e, i) > 0 && k == Key(ms[i], Required(ms, e, i)) {
      assert i < |e.vc| && k.sender == ms[i];
    }
    if i :| 0 <= i < |e.vc| && k.num > 0 && k.sender == ms[i]
            && e.vc[i] == if i == SlotOf(ms, e.sender) then k.num + 1 else k.num {
      assert Required(ms, e, i) == k.num;
    }
  }

  lemma WaitListEmpty(ms: seq<ReplicaId>, envs: Nodes, e: Envelope)
    requires Fits(ms, e)
    ensures WaitList(ms, envs, e) == [] <==> Parents(ms, e) <= envs.Keys
  {
    MissingListIsMissing(ms, envs.Keys, e);
    var list := WaitList(ms, envs, e);
    if list != [] { assert list[0] in list; }
    if !(Parents(ms, e) <= envs.Keys) {
      var k :| k in Parents(ms, e) && k !in envs.Keys;
      assert k in list;
    }
  }

  lemma NewNode(ms: seq<ReplicaId>, envs: Nodes, env: Envelope, n: Node)
    requires Closed(ms, envs) && Admissible(ms, envs, env)
    requires n == Node(env, SeqOf(ms, env), SlotOf(ms, env.sender), Wave(env.vc), ParentList(ms, env, |ms|), [])
    ensures IsNode(ms, envs[KeyOf(ms, env) := env], KeyOf(ms, env), n)
  {
    var key := KeyOf(ms, env);
    assert key !in Parents(ms, env);
    assert forall x :: x in envs ==> key !in Parents(ms, envs[x]);
  }

  lemma OldNode(ms: seq<ReplicaId>, envs: Nodes, env: Envelope, k: Key, n: Node)
    requires Admissible(ms, envs, env) && IsNode(ms, envs, k, n)
    ensures var key := KeyOf(ms, env);
      IsNode(ms, envs[key := env], k, if k in Parents(ms, env) then n.(children := n.children + [key]) else n)
  {
  }

  function WithChild(ms: seq<ReplicaId>, env: Envelope, k: Key, n: Node): Node {
    if k in Parents(ms, env) then n.(children := n.children + [KeyOf(ms, env)]) else n
  }

  /** after is before with env's node added and entered as a child of its predecessors. */
  ghost predicate Grown(ms: seq<ReplicaId>, env: Envelope, before: map<Key, Node>, after: map<Key, Node>) {
    && after.Keys == before.Keys + {KeyOf(ms, env)}
    && after[KeyOf(ms, env)]
       == Node(env, SeqOf(ms, env), SlotOf(ms, env.sender), Wave(env.vc), ParentList(ms, env, |ms|), [])
    && forall k {:trigger WithChild(ms, env, k, before[k])} :: k in before && k != KeyOf(ms, env) ==>
         after[k] == WithChild(ms, env, k, before[k])
  }

  /** Linking a new node from its predecessors keeps every node record correct. */
  lemma InsertKeepsNodes(ms: seq<ReplicaId>, envs: Nodes, env: Envelope, before: map<Key, Node>, after: map<Key, Node>)
    requires Closed(ms, envs) && Admissible(ms, envs, env) && AreNodes(ms, envs, before)
    requires Grown(ms, env, before, after)
    ensures AreNodes(ms, envs[KeyOf(ms, env) := env], after)
  {
    forall k | k in after ensures IsNode(ms, envs[KeyOf(ms, env) := env], k, after[k]) {
      if k == KeyOf(ms, env) {
        NewNode(ms, envs, env, after[k]);
      } else {
        assert IsNode(ms, envs, k, before[k]);
        OldNode(ms, envs, env, k, before[k]);
        assert after[k] == WithChild(ms, env, k, before[k]);
      }
    }
  }

  lemma InsertKeepsWaves(ms: seq<ReplicaId>, h: seq<Envelope>, env: Envelope, before: map<nat, seq<Key>>,
                         after: map<nat, seq<Key>>)
    requires IsWaveIndex(ms, h, before)
    requires var w := Wave(env.vc);
      after == before[w := (if w in before then before[w] else []) + [KeyOf(ms, env)]]
    ensures IsWaveIndex(ms, h + [env], after)
  {
    assert (h + [env])[..|h|] == h;
    forall w: nat ensures
      && (w in after <==> WaveList(h + [env], w) != [])
      && (w in after ==> after[w] == KeyList(ms, WaveList(h + [env], w)))
    {
      if w == Wave(env.vc) {
        assert WaveList(h + [env], w) == WaveList(h, w) + [env];
        assert KeyList(ms, WaveList(h, w) + [env]) == KeyList(ms, WaveList(h, w)) + [KeyOf(ms, env)];
        assert WaveList(h, w) == [] ==> KeyList(ms, WaveList(h, w)) == [];
      } else {
        assert WaveList(h + [env], w) == WaveList(h, w);
      }
    }
  }
}
