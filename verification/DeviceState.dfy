/** The device: what it remembers between commands, what reaches it, and what it reports.

    Curve arithmetic, the block cipher, the hashes and the MAC are functions the model is
    given (`Env`); the random values and the results of commands outside the transaction
    come with the command. */
module DeviceState {
  import opened Bytes
  import opened Transcript
  import opened PrefixSpec
  import opened OutputBinding
  import Blinding
  import opened ChangeAddress

  const INS_RESET := 0x02
  const INS_GET_KEY := 0x20
  const INS_DISPLAY_ADDRESS := 0x21
  const INS_OPEN_TX := 0x70
  const INS_SET_SIGNATURE_MODE := 0x72
  const INS_STEALTH := 0x76
  const INS_GEN_COMMITMENT_MASK := 0x77
  const INS_BLIND := 0x78
  const INS_GEN_TXOUT_KEYS := 0x7B
  const INS_VALIDATE := 0x7C
  const INS_PREFIX_HASH := 0x7D
  const INS_MLSAG := 0x7E
  const INS_CLSAG := 0x7F
  const INS_CLOSE_TX := 0x80
  const INS_GET_TX_PROOF := 0xA0

  const TYPE_SCALAR := 1
  const TYPE_DERIVATION := 2
  const TYPE_AMOUNT_KEY := 3
  const TYPE_ALPHA := 4

  const NO_PROTOCOL := 0xff
  const ENCRYPTED_PAYMENT_ID_TAIL: byte := 0x8d
  const TX_EXTRA_NONCE_ENCRYPTED_PAYMENT_ID: byte := 0x01

  type pid8 = k: bytes | |k| == 8 witness seq(8, _ => 0)
  type nonce9 = k: bytes | |k| == PID_NONCE_SIZE witness seq(PID_NONCE_SIZE, _ => 0)
  type word32 = x: int | 0 <= x < TWO32

  function Repeat(b: byte, n: nat): (s: bytes)
    ensures |s| == n && forall i :: 0 <= i < n ==> s[i] == b
  {
    seq(n, _ => b)
  }

  const ZERO_KEY: key := Repeat(0, KEY_SIZE)
  const ZERO_PID: pid8 := Repeat(0, 8)
  const ZERO_NONCE: nonce9 := Repeat(0, PID_NONCE_SIZE)
  const FAKE_SPEND_KEY: key := Repeat(255, KEY_SIZE)

  /** A context nobody initialised. */
  const UNSET := Ctx([[]], [])

  datatype Mode = NoMode | Real | Fake

  /** What the device waits for: nothing, a transaction review, or another screen. */
  datatype Screen = Idle | Review | Other

  /** tx_state_ins, tx_state_p1, tx_state_p2 */
  datatype Gate = Gate(ins: byte, p1: byte, p2: byte)

  /** The four bits of tx_stages. */
  datatype Stages = Stages(prefix: bool, reviewed: bool, approved: bool, prehash: bool)

  const NO_STAGE := Stages(false, false, false, false)

  datatype Session = Session(protocol: byte, screen: Screen, mode: Mode, inProgress: bool, gate: Gate,
                             stages: Stages, more: bool)

  /** One MACed handle: the drawn key, the 32 bytes, the type, and the counter (0 unless ALPHA). */
  datatype Mint = Mint(keyId: nat, data: bytes, kind: nat, count: nat)

  /** `keyId` names the MAC key in force and `draws` the last one drawn: a drawn key never
      comes back. */
  datatype Keys = Keys(r: key, publicR: key, keyId: nat, draws: nat, minted: set<Mint>, signCnt: word32)

  datatype Outputs = Outputs(count: word32, mainKey: key, pidSet: bool, pidNonce: nonce9, pidPub: key, pid: pid8,
                             outEph: bytes, addk: bytes, extraR: key, addkExpected: bool, parser: Parser)

  datatype Reviewing = Reviewing(outKeys: Ctx, outK: bytes, commitments: Ctx, digest: bytes)

  datatype Signing = Signing(keccakH: Ctx, prefixH: bytes, mlsagH: bytes, c: key, history: byte)

  datatype Dev = Dev(session: Session, keys: Keys, outputs: Outputs, review: Reviewing, signing: Signing)
  {
    predicate Signs() { session.inProgress && session.mode == Real }
  }

  /** What is reviewed and derived for one output: 98 bytes on the out_keys chain. */
  datatype Rec = Rec(view: key, spend: key, change: byte, sub: byte, amountKey: key)

  /** The functions of the environment; `None` where the SDK reports an error. */
  datatype Env = Env(
    sha: Hash,
    keccak: Hash,
    seal: bytes -> key,
    unseal: bytes -> key,
    mac: Mint -> key,
    mulG: bytes -> Option<key>,
    mulH: bytes -> Option<key>,
    mul: (bytes, bytes) -> Option<key>,
    addPoints: (bytes, bytes) -> Option<key>,
    derive: (bytes, bytes) -> Option<key>,
    toScalar: (bytes, nat) -> Option<key>,
    outputKey: (bytes, nat, bytes) -> Option<key>,
    viewTag: (bytes, nat) -> Option<byte>,
    streams: Blinding.Streams,
    addressHash: bytes -> key,
    network: nat,
    wallet: Wallet)

  /** What a command outside this model answers, and the handles it hands out. */
  datatype Elsewhere = Elsewhere(sw: nat, scalars: set<bytes>, derivations: set<bytes>)

  /** One command: header, the bytes after it, and the scalar the generator returns to it. */
  datatype Cmd = Cmd(version: byte, ins: byte, p1: byte, p2: byte, body: bytes, random: key, elsewhere: Elsewhere)

  datatype Event = Command(cmd: Cmd) | Accept | Reject | UserReset

  /** What a review puts on screen: an amount, with the address paid, or the account its change
      goes back to. */
  datatype Display = Payment(amount: string, address: string) | Return(amount: string, major: nat)

  /** The secrets and weights a response is computed on. */
  datatype Operands = OnMlsag(xin: nat) | OnClsag(p: nat, z: nat, muP: nat, muC: nat)

  /** What one step did, for the record the theorems are stated on. A transaction that does
      not sign for real leaves no trace but its boundaries and prepared nonces. */
  datatype Note =
    | Quiet
    | Init
    | Opened
    | Ended
    | PaymentId(nonce: nonce9, pub: key, plain: pid8)
    | Derived(entry: Entry, rec: Rec, mainKey: key, addKey: Option<key>)
    | PrefixHeader(header: bytes, unlock: string)
    | PrefixChunk(chunk: bytes, last: bool)
    | Masked(mask: key)
    | Blinded(hidden: Blinding.Amount)
    | Fee(fee: nat, data: bytes, text: string, more: bool)
    | PseudoOut(data: bytes, more: bool)
    | Output(terminal: bool, rec: Rec, commitment: key, k: key, v: key, short: bool, shown: nat, amount: bytes,
             display: Display)
    | Absorbed(commitment: key)
    | Finalized(message: bytes, proof: bytes, prehash: bytes)
    | Accepted
    | Disturbed
    | Prepared(count: nat, handle: bytes, base: bytes, secrets: seq<key>, points: seq<key>)
    | Hashed(first: bool, msg: bytes, last: bool, clsag: bool)
    | Signed(clsag: bool, count: nat, handle: bytes, alpha: nat, c: bytes, s: bytes, on: Operands)
}
