/**
 Parsed Stellar transactions, and the library code the server calls but does not contain.
 Strings are Go strings: sequences of bytes, written as characters.
 */
module Txn {
  import opened Prelude

  type Address = string

  datatype Memo = NoMemo | MemoId(id: nat) | OtherMemo

  datatype Operation =
    | ManageData(source: Address, name: string, value: string)
    | OtherOperation

  /** What the signatures cover. Times are whole seconds; a maxTime of 0 means no upper bound. */
  datatype Body = Body(
    source: Address, sequence: int, minTime: int, maxTime: int,
    memo: Memo, operations: seq<Operation>, baseFee: int)

  datatype Signature = Signature(hint: string, bytes: string)

  datatype Transaction = Transaction(body: Body, signatures: seq<Signature>)

  /** A challenge the reader accepted; an absent client domain leaves both of its fields empty. */
  datatype Challenge = Challenge(
    tx: Transaction, clientAccount: Address, homeDomain: string, memo: Option<nat>,
    nonce: string, clientDomain: string, clientDomainKey: Address)

  /** What a posted base64 string parses to. */
  datatype Posted = Unparseable | FeeBump | Plain(tx: Transaction)

  /** The failure classes of internal/auth/errors.go; BuildFailed stands for the SDK's own build errors. */
  datatype AuthError =
    | InvalidAccount | MemoWithMuxed | UnknownHomeDomain | ClientDomainRequired | ClientDomainRejected
    | ChallengeMalformed | ChallengeUnknown | ChallengeConsumed | ChallengeExpired
    | SignatureUnrecognized | ThresholdNotMet | ClientDomainUnverified
    | AccountLookupFailed
    | BuildFailed

  /**
   The libraries: strkey's two address tests and the account inside a muxed address, ed25519 keys and
   their hints, the network hash of a body (in hex), and whether the SDK agrees to build a body.
   */
  datatype Env = Env(
    isEd25519: Address -> bool,
    isMuxed: Address -> bool,
    muxedBase: Address -> Address,
    hint: Address -> string,
    verifies: (Address, string, string) -> bool,
    hash: Body -> string,
    canBuild: Body -> bool)

  /** strkey: the two kinds of address are disjoint, never empty, and written without a colon. */
  ghost predicate LawfulAddresses(env: Env) {
    && !env.isEd25519("") && !env.isMuxed("")
    && (forall a :: env.isEd25519(a) ==> !env.isMuxed(a))
    && (forall a :: env.isMuxed(a) ==> env.isEd25519(env.muxedBase(a)))
    && (forall a :: env.isEd25519(a) || env.isMuxed(a) ==> ':' !in a)
  }

  /** SHA-256 taken as collision-free and never the empty string. */
  ghost predicate LawfulHash(env: Env) {
    && (forall b, c :: env.hash(b) == env.hash(c) ==> b == c)
    && (forall b :: env.hash(b) != "")
  }

  /** One signature against one key: the four-byte hint first, then ed25519 over the hash. */
  predicate Accepts(env: Env, h: string, key: Address, sig: Signature) {
    sig.hint == env.hint(key) && env.verifies(key, h, sig.bytes)
  }

  /** Some signature on the transaction was made by the key. */
  predicate Signed(env: Env, tx: Transaction, key: Address) {
    exists i :: 0 <= i < |tx.signatures| && Accepts(env, env.hash(tx.body), key, tx.signatures[i])
  }
}
