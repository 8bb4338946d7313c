/**
 The sorted-pair Merkle verifier shared by the fireball and the gumdrop
 (rust/fireball/src/merkle_proof.rs, rust/gumdrop/src/merkle_proof.rs).
 Keccak is idealised: hashes of different tagged contents differ.
 */
module Merkle {
  import opened Prelude

  /** A 32-byte value: the hash of a flagged leaf, the hash of a pair, or one nobody can hash to. */
  datatype Digest =
    | LeafHash(flag: byte, content: seq<byte>)
    | NodeHash(first: Digest, second: Digest)
    | Unhashed(bits: nat)

  /** The comparison of byte arrays; only totality and antisymmetry matter. */
  type Order = (Digest, Digest) -> bool

  ghost predicate IsOrder(le: Order) {
    && (forall a, b :: le(a, b) || le(b, a))
    && (forall a, b :: le(a, b) && le(b, a) ==> a == b)
  }

  function HashPair(le: Order, a: Digest, b: Digest): Digest {
    if le(a, b) then NodeHash(a, b) else NodeHash(b, a)
  }

  /** Trees of any shape, built bottom up by hashing sorted pairs. */
  datatype Tree = Leaf(flag: byte, content: seq<byte>) | Node(left: Tree, right: Tree)

  function Root(le: Order, t: Tree): Digest {
    match t
    case Leaf(flag, content) => LeafHash(flag, content)
    case Node(left, right) => HashPair(le, Root(le, left), Root(le, right))
  }

  predicate HasLeaf(t: Tree, flag: byte, content: seq<byte>) {
    match t
    case Leaf(f, c) => f == flag && c == content
    case Node(left, right) => HasLeaf(left, flag, content) || HasLeaf(right, flag, content)
  }

  /** h is the hash of t itself or of a tree inside it. */
  predicate Inside(le: Order, t: Tree, h: Digest) {
    || h == Root(le, t)
    || (t.Node? && (Inside(le, t.left, h) || Inside(le, t.right, h)))
  }

  /** The hash a proof leads to. */
  function Climb(le: Order, leaf: Digest, proof: seq<Digest>): Digest {
    if proof == [] then leaf
    else HashPair(le, Climb(le, leaf, proof[..|proof| - 1]), proof[|proof| - 1])
  }

  predicate Proves(le: Order, proof: seq<Digest>, root: Digest, leaf: Digest) {
    Climb(le, leaf, proof) == root
  }

  ghost predicate Provable(le: Order, root: Digest, leaf: Digest) {
    exists proof :: Proves(le, proof, root, leaf)
  }

  method Verify(le: Order, proof: seq<Digest>, root: Digest, leaf: Digest) returns (valid: bool)
    ensures valid <==> Proves(le, proof, root, leaf)
  {
    var computed := leaf;
    for i := 0 to |proof|
      invariant computed == Climb(le, leaf, proof[..i])
    {
      assert proof[..i + 1][..i] == proof[..i];
      if le(computed, proof[i]) {
        computed := NodeHash(computed, proof[i]);
      } else {
        computed := NodeHash(proof[i], computed);
      }
    }
    assert proof[..|proof|] == proof;
    valid := computed == root;
  }

  // ---------------------------------------------------------------------------
  // Soundness and completeness

  /** A pair of hashes determines the two trees' hashes, up to their order. */
  lemma PairInjective(le: Order, a: Digest, b: Digest, c: Digest, d: Digest)
    requires HashPair(le, a, b) == HashPair(le, c, d)
    ensures (a == c && b == d) || (a == d && b == c)
  {
  }

  /** Whatever a proof accepts is the hash of something in the tree. */
  lemma {:induction false} Sound(le: Order, proof: seq<Digest>, t: Tree, h: Digest)
    requires Proves(le, proof, Root(le, t), h)
    ensures Inside(le, t, h)
  {
    if proof != [] {
      var last := |proof| - 1;
      var below := Climb(le, h, proof[..last]);
      match t {
        case Leaf(_, _) =>
          assert false;
        case Node(left, right) =>
          PairInjective(le, below, proof[last], Root(le, left), Root(le, right));
          Sound(le, proof[..last], if below == Root(le, left) then left else right, h);
      }
    }
  }

  lemma ClimbNext(le: Order, leaf: Digest, proof: seq<Digest>, sibling: Digest)
    ensures Climb(le, leaf, proof + [sibling]) == HashPair(le, Climb(le, leaf, proof), sibling)
  {
    assert (proof + [sibling])[..|proof|] == proof;
  }

  /** The siblings on the way up prove everything in the tree. */
  lemma {:induction false} Complete(le: Order, t: Tree, h: Digest) returns (proof: seq<Digest>)
    requires IsOrder(le)
    requires Inside(le, t, h)
    ensures Proves(le, proof, Root(le, t), h)
  {
    if h == Root(le, t) {
      proof := [];
    } else {
      var below, beside := t.left, t.right;
      if !Inside(le, t.left, h) {
        below, beside := t.right, t.left;
      }
      proof := Complete(le, below, h);
      ClimbNext(le, h, proof, Root(le, beside));
      proof := proof + [Root(le, beside)];
    }
  }

  /** The tags keep leaves apart from pairs. */
  lemma {:induction false} LeafInside(le: Order, t: Tree, flag: byte, content: seq<byte>)
    ensures Inside(le, t, LeafHash(flag, content)) <==> HasLeaf(t, flag, content)
  {
    match t {
      case Leaf(_, _) =>
      case Node(left, right) =>
        LeafInside(le, left, flag, content);
        LeafInside(le, right, flag, content);
    }
  }

  /** The hashes some proof accepts are exactly those of the tree and its subtrees. */
  lemma ProvableIffInside(le: Order, t: Tree, h: Digest)
    requires IsOrder(le)
    ensures Provable(le, Root(le, t), h) <==> Inside(le, t, h)
  {
    if Inside(le, t, h) {
      var proof := Complete(le, t, h);
      assert Proves(le, proof, Root(le, t), h);
    }
    forall proof | Proves(le, proof, Root(le, t), h)
      ensures Inside(le, t, h)
    {
      Sound(le, proof, t, h);
    }
  }

  /** A leaf has a proof exactly when it is a leaf of the tree. */
  lemma ProvableIffLeaf(le: Order, t: Tree, flag: byte, content: seq<byte>)
    requires IsOrder(le)
    ensures Provable(le, Root(le, t), LeafHash(flag, content)) <==> HasLeaf(t, flag, content)
  {
    ProvableIffInside(le, t, LeafHash(flag, content));
    LeafInside(le, t, flag, content);
  }
}
