/** User operations as the mempool, the bundler and the packing code see them. */
module UserOperations {
  import opened Basics

  datatype Authorization = Authorization(chainId: nat, delegate: Address, nonce: nat, yParity: nat, r: nat, s: nat)

  datatype UserOperation = UserOperation(
    sender: Address,
    nonce: nat,
    nonceKey: nat,  // zero when absent
    factory: Option<Address>,
    factoryData: Option<Bytes>,
    callData: Bytes,
    callGasLimit: nat,
    verificationGasLimit: nat,
    preVerificationGas: nat,
    maxFeePerGas: nat,
    maxPriorityFeePerGas: nat,
    paymaster: Option<Address>,
    paymasterVerificationGasLimit: Option<nat>,
    paymasterPostOpGasLimit: Option<nat>,
    paymasterData: Option<Bytes>,
    signature: Bytes,
    authorizations: seq<Authorization>)

  /** The factory value that marks an EIP-7702 account initialisation: 0x7702. */
  const EIP_7702_MARKER: Address := [0x77, 0x02]

  /** A nonce key occupies the bits above the 64-bit sequence number. */
  function PackedNonce(op: UserOperation): nat {
    op.nonceKey * 0x1_0000_0000_0000_0000 + op.nonce
  }

  function OrZero(n: Option<nat>): nat {
    match n
    case None => 0
    case Some(v) => v
  }

  /** How many of the roles sender, paymaster and factory `a` plays in `op`. */
  function RoleCount(op: UserOperation, a: Address): nat {
    (if op.sender == a then 1 else 0) + EntityRoleCount(op, a)
  }

  function EntityRoleCount(op: UserOperation, a: Address): nat {
    (if op.paymaster == Some(a) then 1 else 0) + (if op.factory == Some(a) then 1 else 0)
  }
}
