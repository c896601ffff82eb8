/**
 Values shared by every component: transactions, blocks, genesis parameters.

 Hashes are symbolic.  A transaction id is a constructor applied to the transaction
 it hashes and a block id is a constructor applied to the block it hashes, so two ids
 are equal exactly when the hashed contents are: the collision freedom that
 keccak256 stands for in the program.
 */
module ChainTypes {

  datatype Option<+T> = None | Some(value: T)

  datatype Result<+T, +E> = Ok(value: T) | Err(error: E)

  // An address; address 0 is the zero address that transactions may not name.
  type Address = nat

  // The largest value of an unsigned 64-bit integer.
  const MAX_UINT64: nat := 0xFFFF_FFFF_FFFF_FFFF

  type UInt64 = n: nat | n <= MAX_UINT64

  // What an unsigned 64-bit variable holds after being assigned n.
  function Wrap(n: int): (r: nat)
    ensures r <= MAX_UINT64 && (0 <= n <= MAX_UINT64 ==> r == n)
  {
    n % 0x1_0000_0000_0000_0000
  }

  /** Wrapping early or late makes no difference to a sum. */
  lemma WrapSum(a: int, b: int)
    ensures Wrap(Wrap(a) + b) == Wrap(a + b)
  {}

  lemma WrapTwo(a: int, b: int)
    ensures Wrap(Wrap(a) + Wrap(b)) == Wrap(a + b)
  {
    WrapSum(a, b);
    WrapSum(b, Wrap(a));
  }

  lemma WrapProduct(n: nat, a: int)
    ensures Wrap(n * Wrap(a)) == Wrap(n * a)
  {
    var k := a / 0x1_0000_0000_0000_0000;
    assert a == Wrap(a) + k * 0x1_0000_0000_0000_0000;
    assert n * a == n * Wrap(a) + (n * k) * 0x1_0000_0000_0000_0000;
    WrapPeriod(n * Wrap(a), n * k);
  }

  lemma WrapPeriod(a: int, k: int)
    ensures Wrap(a + k * 0x1_0000_0000_0000_0000) == Wrap(a)
  {}

  datatype Payload =
    | SetValue(bytes: seq<nat>)
    | Free(data: nat)   // work proofs and refreshes
    | Other(data: nat)

  /** A signed transaction: the base fields, the kind-specific part and the signature,
      which stands for the address it recovers to. */
  datatype Transaction = Transaction(blockId: BlockId, magic: nat, price: nat, payload: Payload, sender: Address)
  {
    function ID(): TxId { TxHash(this) }

    /** Units a transaction adds to the block and pays for: SetTx pays for the size of its
        value, some kinds for nothing. */
    function LoadUnits(g: Genesis): nat {
      match payload
      case SetValue(bytes) => g.baseTxUnits + |bytes| / g.valueUnitSize + 1
      case Free(_) => 0
      case Other(_) => g.baseTxUnits
    }
  }

  /** A value is paid for in units of its size, rounded up: at least one, and one more where
      it fills the last one. */
  lemma LoadOfValue(g: Genesis, t: Transaction)
    requires t.payload.SetValue?
    ensures var units := t.LoadUnits(g) - g.baseTxUnits;
            (units - 1) * g.valueUnitSize <= |t.payload.bytes| < units * g.valueUnitSize
  {
    var units := |t.payload.bytes| / g.valueUnitSize + 1;
    assert t.LoadUnits(g) - g.baseTxUnits == units;
    assert units * g.valueUnitSize == (units - 1) * g.valueUnitSize + g.valueUnitSize;
  }

  datatype TxId = TxHash(tx: Transaction)

  datatype StatefulBlock = StatefulBlock(
    prnt: BlockId, tmstmp: int, hght: nat, price: nat, cost: nat, accessProof: nat, txs: seq<Transaction>)
  {
    function ID(): BlockId { BlockHash(this) }
  }

  datatype BlockId = EmptyId | BlockHash(block: StatefulBlock)

  datatype GenesisParams = GenesisParams(
    magic: nat, baseTxUnits: nat, valueUnitSize: nat, minPrice: nat, lookbackWindow: int,
    targetBlockRate: int, maxBlockSize: nat, blockCostEnabled: bool)

  // The value unit size divides value lengths, so it cannot be zero.
  type Genesis = g: GenesisParams | g.valueUnitSize > 0 && g.lookbackWindow > 0
    witness GenesisParams(1, 1, 1024, 0, 60, 1, 246, true)

  /** The load of a list of transactions. */
  function BlockUnits(g: Genesis, txs: seq<Transaction>): nat {
    if txs == [] then 0 else BlockUnits(g, txs[..|txs| - 1]) + txs[|txs| - 1].LoadUnits(g)
  }
}
