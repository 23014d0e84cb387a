/**
 * The CRDT engine (Yjs) as the persistence layer sees it: an initial empty
 * document, `applyUpdate`, and `encodeStateAsUpdate`. Its internals are not
 * part of this model; every operation below is parameterised by an engine.
 */
module Crdt {

  /** An element of a `Uint8Array`. */
  newtype uint8 = x: int | 0 <= x < 256

  /** Update payloads and encoded states are byte strings (`Uint8Array`). */
  type Bytes = seq<uint8>

  /**
   * `init` is a fresh `new Y.Doc()`, `apply(d, u)` is the document after
   * `Y.applyUpdate(d, u)`, and `encode(d)` is `Y.encodeStateAsUpdate(d)`.
   */
  datatype Engine<!S> = Engine(init: S, apply: (S, Bytes) -> S, encode: S -> Bytes)

  /** Applies the updates one after another, first to last, starting from `d`. */
  function Fold<S>(e: Engine<S>, d: S, us: seq<Bytes>): S
    decreases |us|
  {
    if us == [] then d else Fold(e, e.apply(d, us[0]), us[1..])
  }

  /** The state a fresh document reaches by replaying `us` in order, encoded. */
  function Rebuild<S>(e: Engine<S>, us: seq<Bytes>): Bytes {
    e.encode(Fold(e, e.init, us))
  }

  /** Replaying `a + b` is replaying `a` and then replaying `b` on the result. */
  lemma {:induction false} FoldAppend<S>(e: Engine<S>, d: S, a: seq<Bytes>, b: seq<Bytes>)
    ensures Fold(e, d, a + b) == Fold(e, Fold(e, d, a), b)
    decreases |a|
  {
    if a == [] {
      assert a + b == b;
    } else {
      assert (a + b)[1..] == a[1..] + b;
      FoldAppend(e, e.apply(d, a[0]), a[1..], b);
    }
  }

  /** Replaying one more update is one more `apply` at the end. */
  lemma FoldSnoc<S>(e: Engine<S>, d: S, a: seq<Bytes>, u: Bytes)
    ensures Fold(e, d, a + [u]) == e.apply(Fold(e, d, a), u)
  {
    FoldAppend(e, d, a, [u]);
  }
}
