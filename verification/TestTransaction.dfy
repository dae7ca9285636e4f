/** Transactions in test mode: one outer transaction, a savepoint for each block, and savepoints that
    are rolled back to but never released. */
module TestTransaction {
  import opened Results

  // ----- what the database does with savepoints -----

  datatype Savepoint<T> = Savepoint(name: string, snapshot: T)

  /** An open transaction: what it sees, and its savepoints with the newest last. */
  datatype Tx<T> = Tx(view: T, stack: seq<Savepoint<T>>)

  /** The newest savepoint of a name; older ones of the same name are hidden by it. */
  function Find<T>(stack: seq<Savepoint<T>>, name: string): (i: Option<nat>)
    ensures i.Some? ==> i.value < |stack| && stack[i.value].name == name
    ensures i.Some? ==> forall j | i.value < j < |stack| :: stack[j].name != name
    ensures i.None? ==> forall j | 0 <= j < |stack| :: stack[j].name != name
  {
    if stack == [] then None
    else if stack[|stack| - 1].name == name then Some(|stack| - 1)
    else Find(stack[..|stack| - 1], name)
  }

  function Save<T>(tx: Tx<T>, name: string): Tx<T> {
    tx.(stack := tx.stack + [Savepoint(name, tx.view)])
  }

  /** Rolling back keeps the savepoint and forgets the newer ones. */
  function RollbackTo<T>(tx: Tx<T>, name: string): Tx<T> {
    match Find(tx.stack, name)
    case None => tx
    case Some(i) => Tx(tx.stack[i].snapshot, tx.stack[..i + 1])
  }

  /** Releasing forgets the savepoint and the newer ones. */
  function Release<T>(tx: Tx<T>, name: string): Tx<T> {
    match Find(tx.stack, name)
    case None => tx
    case Some(i) => tx.(stack := tx.stack[..i])
  }

  // ----- blocks -----

  /** How a block ends; a panic may be caught by whoever asked for the transaction. */
  datatype End = Ok | Err | Panic(caught: bool)

  /** What a block does to the tables, whatever its end. */
  datatype Block<!T> = Block(change: T -> T, end: End)

  /** A block that succeeds is applied, any other is ignored. */
  function Simple<T>(db: T, block: Block<T>): T {
    if block.end.Ok? then block.change(db) else db
  }

  predicate Escapes<T>(block: Block<T>) {
    block.end.Panic? && !block.end.caught
  }

  /** The blocks that run: all up to the first panic that nobody catches. */
  function Reached<T>(blocks: seq<Block<T>>): (n: nat)
    ensures n <= |blocks|
    ensures n < |blocks| ==> n > 0
    ensures forall i | 0 <= i < n - 1 :: !Escapes(blocks[i])
    ensures n > 0 ==> n == |blocks| || Escapes(blocks[n - 1])
  {
    if blocks == [] then 0 else if Escapes(blocks[0]) then 1 else 1 + Reached(blocks[1..])
  }

  function Applied<T>(db: T, blocks: seq<Block<T>>): T {
    if blocks == [] then db
    else Simple(Applied(db, blocks[..|blocks| - 1]), blocks[|blocks| - 1])
  }

  function Nested<T>(tx: Tx<T>, name: string, block: Block<T>): Tx<T> {
    var open := Save(tx, name);
    var changed := open.(view := block.change(open.view));
    if block.end.Ok? then Release(changed, name) else RollbackTo(changed, name)
  }

  /** A nested block looks like the simple meaning, whatever savepoints are on the stack and whatever
      they are called. It leaves at most one more savepoint behind. */
  lemma NestedIsSimple<T>(tx: Tx<T>, name: string, block: Block<T>)
    ensures Nested(tx, name, block).view == Simple(tx.view, block)
    ensures Nested(tx, name, block).stack
            == tx.stack + if block.end.Ok? then [] else [Savepoint(name, tx.view)]
  {
    var open := Save(tx, name);
    assert Find(open.stack, name) == Some(|tx.stack|);
    assert open.stack[..|tx.stack|] == tx.stack;
  }

  function NestedAll<T>(tx: Tx<T>, names: seq<string>, blocks: seq<Block<T>>): Tx<T>
    requires |names| == |blocks|
  {
    if blocks == [] then tx
    else
      var n := |blocks| - 1;
      Nested(NestedAll(tx, names[..n], blocks[..n]), names[n], blocks[n])
  }

  function Failed<T>(blocks: seq<Block<T>>): nat {
    if blocks == [] then 0
    else Failed(blocks[..|blocks| - 1]) + if blocks[|blocks| - 1].end.Ok? then 0 else 1
  }

  /** For every sequence of blocks and names, the view is that of the successful blocks alone, and one
      savepoint leaks for each block that failed. */
  lemma {:induction false} NestedAllIsApplied<T>(tx: Tx<T>, names: seq<string>, blocks: seq<Block<T>>)
    requires |names| == |blocks|
    ensures NestedAll(tx, names, blocks).view == Applied(tx.view, blocks)
    ensures |NestedAll(tx, names, blocks).stack| == |tx.stack| + Failed(blocks)
    ensures tx.stack <= NestedAll(tx, names, blocks).stack
    decreases |blocks|
  {
    if blocks != [] {
      var n := |blocks| - 1;
      NestedAllIsApplied(tx, names[..n], blocks[..n]);
      NestedIsSimple(NestedAll(tx, names[..n], blocks[..n]), names[n], blocks[n]);
    }
  }

  // ----- the connection -----

  datatype Reply = Done | Refused | Panicked | NotStarted

  class Connection<T> {
    var db: T
    var tx: Option<Tx<T>>

    constructor (db: T)
      ensures this.db == db && tx == None
    {
      this.db, tx := db, None;
    }

    method NestedTransaction(name: string, block: Block<T>) returns (r: Reply)
      requires tx.Some?
      modifies this`tx
      ensures tx == Some(Nested(old(tx.value), name, block))
      ensures r == match block.end case Ok => Done case Err => Refused case Panic(_) => Panicked
    {
      var work := Save(tx.value, name);
      work := work.(view := block.change(work.view));
      match block.end {
        case Ok =>
          work := Release(work, name);
          r := Done;
        case Err =>
          work := RollbackTo(work, name);
          r := Refused;
        case Panic(_) =>
          work := RollbackTo(work, name);
          r := Panicked;
      }
      tx := Some(work);
    }

    /** Outside a test there is no transaction to nest in. */
    method Transaction(name: string, block: Block<T>) returns (r: Reply)
      modifies this`tx
      ensures old(tx).None? ==> r == NotStarted && tx == None
      ensures old(tx).Some? ==> tx.Some? && tx.value.view == Simple(old(tx).value.view, block)
                                && (r == Done <==> block.end.Ok?) && (r == Panicked <==> block.end.Panic?)
    {
      if tx.None? {
        return NotStarted;
      }
      NestedIsSimple(tx.value, name, block);
      r := NestedTransaction(name, block);
    }

    /** A test that runs the blocks in turn. `seen` is what its last look at the database shows.
        The outer transaction is rolled back at the end; a panic that escapes leaves it open,
        but nothing is committed either way. */
    method Test(names: seq<string>, blocks: seq<Block<T>>) returns (seen: T, replies: seq<Reply>)
      requires |names| == |blocks|
      modifies this`tx
      ensures var n := Reached(blocks);
              && seen == Applied(db, blocks[..n])
              && |replies| == n && (forall i | 0 <= i < n :: replies[i] == Done <==> blocks[i].end.Ok?)
              && (tx.None? <==> n == 0 || !Escapes(blocks[n - 1]))
    {
      tx := Some(Tx(db, []));
      replies := [];
      var i := 0;
      while i < |blocks|
        invariant 0 <= i <= |blocks| && |replies| == i
        invariant tx.Some? && tx.value.view == Applied(db, blocks[..i])
        invariant forall j | 0 <= j < i :: !Escapes(blocks[j])
        invariant forall j | 0 <= j < i :: replies[j] == Done <==> blocks[j].end.Ok?
      {
        assert blocks[..i + 1][..i] == blocks[..i];
        var r := Transaction(names[i], blocks[i]);
        replies := replies + [r];
        seen := tx.value.view;
        if r == Panicked && !blocks[i].end.caught {
          return;
        }
        i := i + 1;
      }
      assert blocks[..|blocks|] == blocks;
      seen := tx.value.view;
      tx := None;
    }
  }
}
