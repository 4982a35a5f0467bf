/** Access blocks and their collision relation (include/core/info.h). */
module Access {

  datatype Access = CheckOnly | Writable | ReadOnly | IntAdditive

  datatype Operation = Check | IntAdd | Read | Write

  /** One declared access block. The offset is the key under which it is stored. */
  datatype Block = Block(size: int, access: Access, request: nat)

  /** A chunk: its application, and its identifier there. */
  datatype ChunkId = ChunkId(app: int, local: int)

  /** An access block with its place. */
  datatype Declared = Declared(chunk: ChunkId, offset: int, block: Block)

  predicate Denies(a: Access, op: Operation) {
    match a
    case CheckOnly => op != Check
    case IntAdditive => !(op == Check || op == IntAdd)
    case ReadOnly => !(op == Check || op == Read)
    case Writable => !(op == Write || op == Check || op == Read)
  }

  /** What each access type permits. */
  lemma {:induction false} PermittedOperations(op: Operation)
    ensures !Denies(CheckOnly, op) <==> op == Check
    ensures !Denies(Writable, op) <==> op == Check || op == Read || op == Write
    ensures !Denies(ReadOnly, op) <==> op == Check || op == Read
    ensures !Denies(IntAdditive, op) <==> op == Check || op == IntAdd
  {
  }

  predicate Collides(a: Access, b: Access) {
    match a
    case CheckOnly => false
    case IntAdditive => b != CheckOnly
    case ReadOnly => b != CheckOnly && b != ReadOnly
    case Writable => b != CheckOnly
  }

  predicate MayWrite(a: Access) {
    a != ReadOnly && a != CheckOnly
  }

  function Rank(a: Access): nat {
    match a
    case CheckOnly => 0
    case Writable => 1
    case ReadOnly => 2
    case IntAdditive => 3
  }

  /** `operator<` on blocks: by access type, then by request. The size is not compared. */
  predicate BlockLess(a: Block, b: Block) {
    Rank(a.access) < Rank(b.access) || (a.access == b.access && a.request < b.request)
  }

  /** The end that the sweeps use for the left block: the two accessible size blocks cover [-2,0). */
  function End(offset: int, b: Block): int {
    if offset == -1 || offset == -2 then 0 else offset + b.size
  }

  /** Two additive blocks on exactly the same bytes: the only overlapping modifiers that never collide. */
  predicate AdditiveSame(o1: int, b1: Block, o2: int, b2: Block) {
    b1.access == IntAdditive && b2.access == IntAdditive && o1 == o2 && b1.size == b2.size
  }

  predicate Touches(op: Operation) {
    op != Check
  }

  predicate Modifies(op: Operation) {
    op == Write || op == IntAdd
  }

  /** The switch in `collides` is exactly the conflict relation induced by `denies`: two access types
      collide iff they permit two operations that both touch memory, one of which modifies it. */
  lemma {:induction false} CollidesIsConflict(a: Access, b: Access)
    ensures Collides(a, b) <==>
            exists p, q :: !Denies(a, p) && !Denies(b, q) && Touches(p) && Touches(q) && (Modifies(p) || Modifies(q))
    ensures Collides(a, b) == Collides(b, a)
  {
    if Collides(a, b) {
      var p := if a == Writable then Write else if a == IntAdditive then IntAdd else Read;
      var q := if b == Writable then Write else if b == IntAdditive then IntAdd else Read;
      assert !Denies(a, p) && !Denies(b, q) && Touches(p) && Touches(q) && (Modifies(p) || Modifies(q));
    }
  }
}
