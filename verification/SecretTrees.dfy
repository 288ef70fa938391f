/** The secret tree of one epoch (mls/keyschedule/secrettree.go; section 9 of RFC 9420): which
    leaves its recursion reaches, and that no two (leaf, ratchet, generation) share a key or nonce. */
module SecretTrees {

  import opened TreeMath

  /** The labels and contexts the tree expands with. */
  datatype Use =
    | TreeLeft | TreeRight
    | HandshakeUse | ApplicationUse
    | SecretUse(generation: nat) | KeyUse(generation: nat) | NonceUse(generation: nat)

  /** The key derivation is injective: a free constructor of secret, label and context. */
  datatype Secret = Encryption(id: nat) | Expand(secret: Secret, use: Use)

  datatype RatchetType = HandshakeRatchet | ApplicationRatchet

  // ---------------------------------------------------------------- which leaves lie below a node

  predicate Below(leaf: nat, x: nat) {
    First(x) <= 2 * leaf < x + Pow2(Level(x))
  }

  lemma BelowLeaf(leaf: nat, x: nat)
    requires Level(x) == 0
    ensures Below(leaf, x) <==> x == 2 * leaf
  {
    assert Pow2(0) == 1;
  }

  /** An even number in the span of an odd one lies strictly to one side of it. */
  lemma SplitAt(even: nat, first: int, x: nat, end: int)
    requires even % 2 == 0 && x % 2 == 1 && first <= x < end
    ensures first <= even < end <==> first <= even < x || x + 1 <= even < end
  {
  }

  lemma {:induction false} BelowChildren(leaf: nat, x: nat)
    requires Level(x) > 0
    ensures Below(leaf, x) <==> Below(leaf, LeftBelow(x)) || Below(leaf, RightBelow(x))
    ensures !(Below(leaf, LeftBelow(x)) && Below(leaf, RightBelow(x)))
  {
    ChildSpans(x);
    SplitAt(2 * leaf, First(x), x, x + Pow2(Level(x)));
  }

  /** Clamping into the tree loses no leaf of it. */
  lemma {:induction false} BelowClamped(leaf: nat, r: nat, w: nat)
    requires First(r) < w && 2 * leaf < w
    ensures Below(leaf, Descend(r, w)) <==> Below(leaf, r)
    decreases Level(r)
  {
    if r >= w {
      ChildEdges(r);
      BelowChildren(leaf, r);
      BelowClamped(leaf, LeftBelow(r), w);
    }
  }

  lemma {:induction false} BelowRoot(leaf: nat, n: nat)
    requires leaf < n
    ensures Below(leaf, Root(n))
  {
    var w := NodeWidth(n);
    var K := Log2(w);
    RootLevel(n);
    CoordinatesIndex(Root(n));
    IndexClosedForm(K, 0);
    Log2Bounds(w);
  }

  /** Each leaf of the tree below an internal node is below exactly one of its two children. */
  lemma {:induction false} BelowOneChild(leaf: nat, x: nat, n: nat)
    requires x < NodeWidth(n) && Level(x) > 0 && leaf < n
    ensures RightOf(x, n).Some?
    ensures Below(leaf, x) <==> Below(leaf, LeftBelow(x)) || Below(leaf, RightOf(x, n).value)
    ensures !(Below(leaf, LeftBelow(x)) && Below(leaf, RightOf(x, n).value))
  {
    RightSubtreeStarts(x, n);
    BelowChildren(leaf, x);
    BelowClamped(leaf, RightBelow(x), NodeWidth(n));
  }

  // ---------------------------------------------------------------- the recursion

  lemma {:induction false} ChildLevels(x: nat, n: nat)
    requires x < NodeWidth(n) && Level(x) > 0
    ensures LeftBelow(x) < NodeWidth(n) && Level(LeftBelow(x)) < Level(x)
    ensures RightOf(x, n).Some? && RightOf(x, n).value < NodeWidth(n) && Level(RightOf(x, n).value) < Level(x)
  {
    ChildEdges(x);
    RightSubtreeStarts(x, n);
  }

  /** The secret of every leaf the recursion from node x reaches. */
  function LeafSecrets(x: nat, n: nat, secret: Secret): map<nat, Secret>
    requires x < NodeWidth(n)
    decreases Level(x)
  {
    if Level(x) == 0 then map[x / 2 := secret]
    else
      ChildLevels(x, n);
      LeafSecrets(LeftBelow(x), n, Expand(secret, TreeLeft))
        + LeafSecrets(RightOf(x, n).value, n, Expand(secret, TreeRight))
  }

  /** The recursion from x reaches exactly the tree's leaves below x, */
  lemma {:induction false} ReachesBelow(x: nat, n: nat, secret: Secret, leaf: nat)
    requires x < NodeWidth(n)
    ensures leaf in LeafSecrets(x, n, secret) <==> leaf < n && Below(leaf, x)
    decreases Level(x)
  {
    if Level(x) == 0 {
      BelowLeaf(leaf, x);
      EvenNode(x);
    } else {
      ChildLevels(x, n);
      ReachesBelow(LeftBelow(x), n, Expand(secret, TreeLeft), leaf);
      ReachesBelow(RightOf(x, n).value, n, Expand(secret, TreeRight), leaf);
      if leaf < n { BelowOneChild(leaf, x, n); }
    }
  }

  lemma EvenNode(x: nat)
    requires Level(x) == 0
    ensures x == 2 * (x / 2)
  {
  }

  /** each of them on one side only, */
  lemma {:induction false} ReachesOnce(x: nat, n: nat, s: Secret, t: Secret)
    requires x < NodeWidth(n) && Level(x) > 0
    ensures LeftBelow(x) < NodeWidth(n) && RightOf(x, n).Some? && RightOf(x, n).value < NodeWidth(n)
    ensures LeafSecrets(LeftBelow(x), n, s).Keys !! LeafSecrets(RightOf(x, n).value, n, t).Keys
  {
    ChildLevels(x, n);
    forall leaf | leaf in LeafSecrets(LeftBelow(x), n, s) ensures leaf !in LeafSecrets(RightOf(x, n).value, n, t) {
      ReachesBelow(LeftBelow(x), n, s, leaf);
      ReachesBelow(RightOf(x, n).value, n, t, leaf);
      BelowOneChild(leaf, x, n);
    }
  }

  /** and from the root, for any number of leaves, every leaf and nothing else. */
  lemma FillsEveryLeaf(n: nat, secret: Secret, leaf: nat)
    requires n >= 1
    ensures Root(n) < NodeWidth(n)
    ensures leaf in LeafSecrets(Root(n), n, secret) <==> leaf < n
  {
    RootLevel(n);
    ReachesBelow(Root(n), n, secret, leaf);
    if leaf < n { BelowRoot(leaf, n); }
  }

  // ---------------------------------------------------------------- distinct secrets

  function Size(s: Secret): nat {
    match s
    case Encryption(_) => 0
    case Expand(p, _) => 1 + Size(p)
  }

  predicate From(root: Secret, s: Secret) {
    s == root || (s.Expand? && From(root, s.secret))
  }

  lemma {:induction false} FromSize(root: Secret, s: Secret)
    requires From(root, s)
    ensures Size(root) <= Size(s)
  {
    if s != root { FromSize(root, s.secret); }
  }

  /** Two expansions of one secret under different uses have no common descendant. */
  lemma {:induction false} SidesDiffer(root: Secret, a: Use, b: Use, s: Secret, t: Secret)
    requires a != b && From(Expand(root, a), s) && From(Expand(root, b), t)
    ensures s != t
  {
    if s == t { OneSide(root, a, b, s); }
  }

  lemma {:induction false} OneSide(root: Secret, a: Use, b: Use, s: Secret)
    requires From(Expand(root, a), s) && From(Expand(root, b), s)
    ensures a == b
  {
    if s == Expand(root, a) {
      if a != b { FromSize(Expand(root, b), root); }
    } else if s == Expand(root, b) {
      FromSize(Expand(root, a), root);
    } else {
      OneSide(root, a, b, s.secret);
    }
  }

  lemma {:induction false} FromThrough(root: Secret, mid: Secret, s: Secret)
    requires From(root, mid) && From(mid, s)
    ensures From(root, s)
  {
    if s != mid { FromThrough(root, mid, s.secret); }
  }

  lemma {:induction false} LeafSecretFrom(x: nat, n: nat, secret: Secret, leaf: nat)
    requires x < NodeWidth(n) && leaf in LeafSecrets(x, n, secret)
    ensures From(secret, LeafSecrets(x, n, secret)[leaf])
    decreases Level(x)
  {
    if Level(x) > 0 {
      ChildLevels(x, n);
      var l, r := Expand(secret, TreeLeft), Expand(secret, TreeRight);
      if leaf in LeafSecrets(RightOf(x, n).value, n, r) {
        LeafSecretFrom(RightOf(x, n).value, n, r, leaf);
        FromThrough(secret, r, LeafSecrets(x, n, secret)[leaf]);
      } else {
        LeafSecretFrom(LeftBelow(x), n, l, leaf);
        FromThrough(secret, l, LeafSecrets(x, n, secret)[leaf]);
      }
    }
  }

  lemma {:induction false} LeafSecretsDiffer(x: nat, n: nat, secret: Secret, i: nat, j: nat)
    requires x < NodeWidth(n) && i in LeafSecrets(x, n, secret) && j in LeafSecrets(x, n, secret) && i != j
    ensures LeafSecrets(x, n, secret)[i] != LeafSecrets(x, n, secret)[j]
    decreases Level(x)
  {
    if Level(x) > 0 {
      ChildLevels(x, n);
      var l, r := Expand(secret, TreeLeft), Expand(secret, TreeRight);
      var left, right := LeafSecrets(LeftBelow(x), n, l), LeafSecrets(RightOf(x, n).value, n, r);
      ReachesOnce(x, n, l, r);
      if i in left && j in left {
        LeafSecretsDiffer(LeftBelow(x), n, l, i, j);
      } else if i in right && j in right {
        LeafSecretsDiffer(RightOf(x, n).value, n, r, i, j);
      } else {
        var a, b := if i in left then i else j, if i in left then j else i;
        LeafSecretFrom(LeftBelow(x), n, l, a);
        LeafSecretFrom(RightOf(x, n).value, n, r, b);
        SidesDiffer(secret, TreeLeft, TreeRight, left[a], right[b]);
      }
    }
  }

  // ---------------------------------------------------------------- ratchets

  function Base(leafSecret: Secret, rt: RatchetType): Secret {
    Expand(leafSecret, if rt.HandshakeRatchet? then HandshakeUse else ApplicationUse)
  }

  function Ratchet(base: Secret, generation: nat): Secret {
    if generation == 0 then base else Expand(Ratchet(base, generation - 1), SecretUse(generation - 1))
  }

  datatype KeyNonce = KeyNonce(key: Secret, nonce: Secret)

  function KeyNonceOf(base: Secret, generation: nat): KeyNonce {
    var s := Ratchet(base, generation);
    KeyNonce(Expand(s, KeyUse(generation)), Expand(s, NonceUse(generation)))
  }

  lemma {:induction false} RatchetInjective(a: Secret, b: Secret, generation: nat)
    requires Ratchet(a, generation) == Ratchet(b, generation)
    ensures a == b
  {
    if generation > 0 { RatchetInjective(a, b, generation - 1); }
  }

  /** Two (leaf, ratchet, generation) triples that share a key or a nonce are the same triple, and
      no key is anybody's nonce. */
  lemma NoSharedKeyOrNonce(n: nat, secret: Secret, i: nat, ri: RatchetType, gi: nat, j: nat, rj: RatchetType, gj: nat)
    requires i < n && j < n
    ensures Root(n) < NodeWidth(n)
    ensures var leaves := LeafSecrets(Root(n), n, secret);
            && i in leaves && j in leaves
            && var a, b := KeyNonceOf(Base(leaves[i], ri), gi), KeyNonceOf(Base(leaves[j], rj), gj);
            && (a.key == b.key || a.nonce == b.nonce ==> i == j && ri == rj && gi == gj)
            && a.key != b.nonce
  {
    FillsEveryLeaf(n, secret, i);
    FillsEveryLeaf(n, secret, j);
    var leaves := LeafSecrets(Root(n), n, secret);
    if gi == gj && Ratchet(Base(leaves[i], ri), gi) == Ratchet(Base(leaves[j], rj), gj) {
      RatchetInjective(Base(leaves[i], ri), Base(leaves[j], rj), gi);
      if i != j { LeafSecretsDiffer(Root(n), n, secret, i, j); }
    }
  }

  // ---------------------------------------------------------------- the tree filled in place

  class SecretTree {
    const leaves: nat
    var handshakeBase: map<nat, Secret>
    var applicationBase: map<nat, Secret>

    constructor (n: nat, secret: Secret)
      requires 1 <= n <= MAX_LEAVES
      ensures leaves == n && Root(n) < NodeWidth(n)
      ensures handshakeBase == Bases(LeafSecrets(Root(n), n, secret), HandshakeRatchet)
      ensures applicationBase == Bases(LeafSecrets(Root(n), n, secret), ApplicationRatchet)
    {
      leaves := n;
      handshakeBase, applicationBase := map[], map[];
      new;
      RootLevel(n);
      DeriveNode(Root(n), secret);
    }

    /** Adds both bases of every leaf below node, none of them written before. */
    method DeriveNode(node: nat, secret: Secret)
      requires leaves <= MAX_LEAVES && node < NodeWidth(leaves)
      requires handshakeBase.Keys !! LeafSecrets(node, leaves, secret).Keys
      requires applicationBase.Keys !! LeafSecrets(node, leaves, secret).Keys
      modifies this
      ensures handshakeBase == old(handshakeBase) + Bases(LeafSecrets(node, leaves, secret), HandshakeRatchet)
      ensures applicationBase == old(applicationBase) + Bases(LeafSecrets(node, leaves, secret), ApplicationRatchet)
      decreases Level(node)
    {
      var left := Left(node);
      if left.None? {
        var leaf := node / 2;
        LeafBases(handshakeBase, leaf, secret, HandshakeRatchet);
        LeafBases(applicationBase, leaf, secret, ApplicationRatchet);
        handshakeBase := handshakeBase[leaf := Expand(secret, HandshakeUse)];
        applicationBase := applicationBase[leaf := Expand(secret, ApplicationUse)];
        return;
      }
      var right := Right(node, leaves);
      var ls, rs := Expand(secret, TreeLeft), Expand(secret, TreeRight);
      ChildLevels(node, leaves);
      ghost var l, r := LeafSecrets(LeftBelow(node), leaves, ls), LeafSecrets(RightOf(node, leaves).value, leaves, rs);
      assert l.Keys !! r.Keys by { ReachesOnce(node, leaves, ls, rs); }
      assert LeafSecrets(node, leaves, secret) == l + r;
      ghost var h, a := handshakeBase, applicationBase;
      BothBases(h, l, r, HandshakeRatchet);
      BothBases(a, l, r, ApplicationRatchet);
      DeriveNode(left.value, ls);
      DeriveNode(right.value, rs);
    }

    method KeyNonceAt(leaf: nat, rt: RatchetType, generation: nat) returns (r: Option<KeyNonce>)
      ensures var base := if rt.HandshakeRatchet? then handshakeBase else applicationBase;
              r == if leaf in base then Some(KeyNonceOf(base[leaf], generation)) else None
    {
      var base := if rt.HandshakeRatchet? then handshakeBase else applicationBase;
      if leaf !in base { return None; }
      var secret := base[leaf];
      var j := 0;
      while j < generation
        invariant 0 <= j <= generation && secret == Ratchet(base[leaf], j)
      {
        secret := Expand(secret, SecretUse(j));
        j := j + 1;
      }
      r := Some(KeyNonce(Expand(secret, KeyUse(generation)), Expand(secret, NonceUse(generation))));
    }
  }

  /** Zero leaves is an error; otherwise both bases are filled for leaves 0 to n - 1 and no others. */
  method NewSecretTree(n: nat, secret: Secret) returns (t: SecretTree?)
    requires n <= MAX_LEAVES
    ensures t == null <==> n == 0
    ensures t != null ==> fresh(t) && t.leaves == n && Root(n) < NodeWidth(n)
    ensures t != null ==> t.handshakeBase == Bases(LeafSecrets(Root(n), n, secret), HandshakeRatchet)
    ensures t != null ==> t.applicationBase == Bases(LeafSecrets(Root(n), n, secret), ApplicationRatchet)
    ensures t != null ==> forall leaf: nat ::
            (leaf in t.handshakeBase <==> leaf < n) && (leaf in t.applicationBase <==> leaf < n)
  {
    if n == 0 { return null; }
    t := new SecretTree(n, secret);
    forall leaf: nat ensures leaf in LeafSecrets(Root(n), n, secret) <==> leaf < n { FillsEveryLeaf(n, secret, leaf); }
  }

  function Bases(leaves: map<nat, Secret>, rt: RatchetType): map<nat, Secret> {
    map leaf | leaf in leaves :: Base(leaves[leaf], rt)
  }

  lemma LeafBases(m: map<nat, Secret>, leaf: nat, secret: Secret, rt: RatchetType)
    ensures m + Bases(map[leaf := secret], rt) == m[leaf := Base(secret, rt)]
  {
  }

  lemma BothBases(m: map<nat, Secret>, l: map<nat, Secret>, r: map<nat, Secret>, rt: RatchetType)
    requires m.Keys !! (l + r).Keys && l.Keys !! r.Keys
    ensures m.Keys !! l.Keys && (m + Bases(l, rt)).Keys !! r.Keys
    ensures m + Bases(l, rt) + Bases(r, rt) == m + Bases(l + r, rt)
  {
    assert l.Keys <= (l + r).Keys && r.Keys <= (l + r).Keys;
    assert (m + Bases(l, rt)).Keys == m.Keys + l.Keys;
  }
}
