# Verified model of the Monero signing device

A host streams a Monero transaction over many commands to a signing device, which must sign
only what it derived itself and what its user approved. This project models the parts of
the app that carry this promise, in the form the C code has, and proves what they keep:
for every input, in every reachable state, over every run of commands, user decisions and
resets.

**The prefix parser** (`PrefixSpec`, `PrefixSafety`, `PrefixRuns`, `PrefixParser`,
`PrefixGrammar`, `PrefixPieces`, `PrefixExtra`, `PrefixAcceptance`). The 22-state resumable
machine is given twice: as a function of one byte, and as a class whose loop takes runs of
bytes and updates the fields in place. The class computes the function, status and state,
over any chunks; the function accepts exactly the strings of a recursive grammar; no counter
ever underflows in a sound configuration, and the one unsound configuration is given with a
stream that underflows.

**The device** (`DeviceState`, `DeviceSpec`, `Device`, `ChangeAddress`). `Device.Vstate` is
the global state of the app, updated in place by a method per command, down to dispatch and
the main loop; it runs the prefix parser, the unblinding and the signature arithmetic as
code, on buffers. `DeviceSpec` says what each command does as a function of the state. Any
error status ends the run, as the main loop does. `DeviceRuns.Play` is the app after any
sequence of events, and `Device.Vstate.AppMain` computes it; every step leaves a note of what
it did, and the theorems speak about the notes of a run:

- `Layouts`: what every note says is what the bytes of the command that left it say, place by
  place.
- `Ordering`: a real signature response comes after its whole transaction, in order, and
  every review in it was accepted at once.
- `Nonces`: a signing nonce is answered at most once.
- `ReviewBinding`, `Commitments`: the outputs reviewed are the outputs derived; every commitment
  the review closes over is the point kG + vH for a value v whose low 64 bits were shown; and the
  commitments hashed for the signature are those closed over exactly when no output step came
  late.
- `Prehash`: what the signed prehash is a digest of, from the fee to the proof.
- `PrefixBinding` (with `OutputBinding`): the prefix that is hashed carries exactly the
  derived outputs, the derived keys and the retained payment ID.
- `ClsagRounds`: a response uses the challenge of a finished hash round, bound to the prehash.
- `OutputKeys`, `Recipients`: the owner of every output derived in a run finds and opens it; the
  recipient at each place of the review finds the output at that place of the signed prefix.
- `PaymentIds`, `ReviewText` (with `AddressReader`, a decoder of addresses): a payment ID goes
  with the recipient it was encrypted to, who reads it from the prefix; the address on screen
  decodes to the keys of the output; amounts, fee and account on screen are those noted.
- `Responses`: the points answered with a nonce are alpha.G, alpha.H, the key image and z.H, and
  with each response a verifier recomputes the first two from them.
- `Handles`: a handle is fetched, later in its transaction, exactly as it was minted.
- `ReviewLimits`: two runs where what is reviewed and what is signed part.
- `HonestRun` (with `HonestHost`, `HonestPrefix`, `HonestSigner`): a transaction whose SDK calls
  succeed is served to the end, whatever its inputs, payments of any kind, payment ID, unlock
  time, pseudo outputs and fee, on either protocol, with every response asked for.

**The arithmetic and the codecs** (`Bytes`, `Modular`, `Group`, `Scalars`, `Signatures`,
`Blinding`, `IoBuffer`, `Varint`, `AmountText`, `Base58`): the in-place scalar code computes
the signature equations and a verifier's equation follows in any commutative group;
blinding, varints, amounts and addresses read back.

## Assumptions

- Hash contexts are transcripts (`Transcript`). A digest is an arbitrary function of the
  whole history of its context, so nothing is assumed about a context that was finalized and
  used again. "Equal digests" never means equal bytes by fiat: a binding theorem says *equal,
  or these two explicit byte strings collide*.
- HMAC is modelled by the set of tuples (key, bytes, type, counter) the device has MACed: a
  MAC is accepted when it is the MAC of such a tuple. A key drawn by the generator is never
  drawn again.
- Curve points, the block cipher and the generator are parameters. Theorems about points hold
  in every commutative group; the base point has order l (section 5.1 of RFC 8032); the
  block cipher is any permutation of 16-byte blocks.
- The SDK's modular operations are exact on reduced operands; what they do with any other is
  a parameter, an answer or an error.

## Findings

- An output step with the continue bit set is still served after the terminal one
  (src/monero_dispatch.c:417-422). Its commitment enters the control digest and not the prehash, so the
  commitments of the last phase can be fewer than those reviewed
  (`ReviewLimits.LateStepEscapesPrehash`, on a run that `ReviewLimits.LateStepHappens`
  builds); they are the same exactly when no such step came (`ReviewBinding.HashedIsClosedIff`).
- In the long form nothing checks the high 24 bytes of an unblinded amount, of which the
  review shows the low 8: a commitment to 2^64 + 1 is shown as 1
  (`ReviewLimits.LongFormShowsLess`). The amount shown is the amount committed to exactly
  when the high bytes are zero (`ReviewBinding.ShownExactIff`), as the short form checks.
- The parser's counters are safe on every stream exactly when the configuration is sound
  (`PrefixSafety.SafeIffSound`): with additional keys expected, an output count of 0 and a
  matching empty digest `prefix_off_remaining` underflows (`PrefixSafety.Underflows`).
  `tx_output_cnt` is 32 bits wide, so this takes a multiple of 2^32 derived outputs and a
  digest collision (`PrefixBinding.ParserSafeInEveryRun`); and nothing shorter than 2^64 keys
  is accepted then (`PrefixSafety.UnsoundAccepts`).
- A padding or TLV run of length 0 that ends `extra` leaves the parser short of done until one
  more byte arrives; the acceptance theorem says so (`PrefixGrammar.InLanguage` asks for a
  non-empty suffix then).
- After its last field `extra` may repeat a 0x04 block: its digest is then taken on a context
  that was finalized and not re-initialised, and the grammar constrains it by that digest only.
- `monero_uint642str` accepts a number with as many digits as the buffer has characters and
  then leaves no terminator (`AmountText.TerminatedIff`, `AmountText.UnterminatedTimelock`);
  the unlock-time review calls it with 15.
- The comment at src/monero_types.h:160-164 says one main public key serves every output. The
  code pins it when the count is 0, so this holds up to 2^32 outputs
  (`PrefixBinding.FinalizedPrefixIsDerived`).

## Model

| member | source | states |
|---|---|---|
| Varint.EncodeVarint | src/monero_crypto.c:117-141 | succeeds exactly when the seven-bit groups of the value fit the length allowed, writes the canonical varint and nothing else |
| Varint.DecodeVarint | src/monero_crypto.c:148-177 | succeeds exactly when the bytes allowed start with a terminated 64-bit varint, and then returns its value and length |
| Varint.EncodeLength | src/monero_crypto.c:121-138 | the encoding has at most k bytes exactly when the value has at most k seven-bit groups |
| Varint.EncodeIsWire | src/monero_crypto.c:117-177 | what is encoded is a varint the decoder accepts, with the same value |
| Varint.DecodeEncode | src/monero_crypto.c:117-177 | decoding an encoding followed by any bytes gives its value and length |
| Varint.WirePrefixUnique | src/monero_crypto.c:148-177 | at most one varint starts a byte string, so bytes that follow one do not change how it reads |
| Varint.FoldAgrees | src/monero_prefix.c:105-117 | on every terminated byte string the parser's accumulator completes or refuses exactly as the decoder, with the same value |
| Varint.FoldByte | src/monero_prefix.c:105-117 | after an unfinished varint one byte is refused, completes, or continues exactly as the bytes so far say, and no set bit is shifted out |
| PrefixSpec.RunFails | src/monero_prefix.c:347-724 | a refusal never carries a success word |
| PrefixSafety.FeedSafe | src/monero_prefix.c:347-724 | one byte keeps every counter, field offset and accumulator in range |
| PrefixSafety.RunSafe | src/monero_prefix.c:347-724 | so does any stream |
| PrefixSafety.SafeIffSound | src/monero_prefix.c:251-287 | no stream brings a counter to the point of underflow exactly when additional keys expected with no output cannot match an empty transcript |
| PrefixSafety.Underflows | src/monero_prefix.c:251-287 | in any other configuration 37 given bytes take the count of additional keys from 0 to 2^64 - 1 |
| PrefixSafety.UnsoundAccepts | src/monero_prefix.c:142-161 | and nothing shorter than 2^64 keys is accepted there |
| PrefixParser.Verifier.constructor | src/monero_prefix.c:179-196 | a reset parser is the machine's start state |
| PrefixParser.Verifier.TakeVarintByte | src/monero_prefix.c:105-117 | one byte into the accumulator: refused, more, or complete |
| PrefixParser.Verifier.FinishOutkeys | src/monero_prefix.c:127-137 | the vout digest must match before extra is read |
| PrefixParser.Verifier.FinishExtra | src/monero_prefix.c:142-161 | extra ends only with R found, the expected additional keys found, and the retained payment ID found |
| PrefixParser.Verifier.NextOutput | src/monero_prefix.c:165-177 | one output less, and the digest check after the last |
| PrefixParser.Verifier.TagState | src/monero_prefix.c:198-246 | dispatch on a field tag, with its length checks |
| PrefixParser.Verifier.AddkState | src/monero_prefix.c:251-287 | as many bytes of the counted keys as are there, hashed, and the digest checked after the last |
| PrefixParser.Verifier.Compare | src/monero_prefix.c:293-307 | as many bytes of a compared field as are there, differences accumulated |
| PrefixParser.Verifier.PubkeyState | src/monero_prefix.c:311-325 | the main key field equals the pinned main key, wherever it is cut |
| PrefixParser.Verifier.PidState | src/monero_prefix.c:330-345 | the nonce field equals the retained payment ID, wherever it is cut |
| PrefixParser.Verifier.RunState | src/monero_prefix.c:667-712 | padding that must be zero, and unparsed content, taken by the run |
| PrefixParser.Verifier.VarintDone | src/monero_prefix.c:354-469 | what each completed varint means |
| PrefixParser.Verifier.OutTagState | src/monero_prefix.c:476-496 | kind and position of an output enter the transcript before its key |
| PrefixParser.Verifier.OutKeyState | src/monero_prefix.c:497-521 | as many bytes of an output key as are there |
| PrefixParser.Verifier.Round | src/monero_prefix.c:352-353 | one turn of the loop consumes input or leaves a zero-length run, so the loop terminates |
| PrefixParser.Verifier.Parse | src/monero_prefix.c:347-724 | the loop over a chunk computes the one-byte machine on it, status and state, from every state a reset parser can reach, in every configuration, and keeps to such states |
| PrefixParser.Verifier.ParseChunks | src/monero_prefix.c:347-724 | calling the loop once per chunk gives the status and state of the one-byte machine on all the bytes, wherever they are cut |
| PrefixPieces.InputForward | src/monero_prefix.c:370-439 | every well-formed input is consumed |
| PrefixPieces.InputPeel | src/monero_prefix.c:370-439 | whatever is accepted at an input starts with a well-formed one |
| PrefixPieces.OutputForward | src/monero_prefix.c:466-532 | every well-formed output is consumed and enters the transcript framed |
| PrefixPieces.OutputPeel | src/monero_prefix.c:466-532 | whatever is accepted at an output starts with a well-formed one |
| PrefixExtra.FieldForward | src/monero_prefix.c:555-712 | every allowed extra field is consumed, cut anywhere |
| PrefixExtra.FieldPeel | src/monero_prefix.c:555-712 | whatever is accepted at a field tag starts with an allowed field |
| PrefixAcceptance.AcceptsExactlyTheLanguage | src/monero_prefix.c:347-724 | in real mode the parser reaches done exactly when the configuration is sound and the stream is in the language: inputs, the counted outputs with matching digest, and an extra whose fields fill its length and pass the bindings, with any suffix (for streams shorter than 2^64 keys when the configuration is not) |
| PrefixAcceptance.FieldsBindings | src/monero_prefix.c:142-161 | accepted extra fields hold exactly one main key, equal to the pinned one; one nonce equal to the retained one if there is one and none otherwise; and counted additional keys exactly when expected |
| PrefixAcceptance.FirstAddKeys | src/monero_prefix.c:569-603 | the first additional-keys field has the digest of the derived keys |
| OutputBinding.EntriesSnoc | src/monero_key.c:1074-1093 | deriving one more output appends its framed entry to the transcript |
| OutputBinding.EntriesInjective | src/monero_api.h:278-296 | the framed variable-length transcript is uniquely decodable |
| OutputBinding.SignedTranscript | src/monero_prefix.c:476-532 | the verifying side builds the same framing for the streamed outputs |
| OutputBinding.SignedIsDerived | src/monero_prefix.c:476-532 | an accepted prefix has, entry by entry, the derived kinds, positions, keys and view tags, or two explicit transcripts collide |
| Scalars.Reverse32 | src/monero_crypto.c:182-200 | reverses 32 bytes, also in place, and refuses short buffers |
| Scalars.ModOp | src/monero_crypto.c:1397-1513 | the reversed-operand addition, subtraction and multiplication store what the SDK answers, whichever operand the result overwrites; the residue when both operands are reduced |
| Scalars.Reduce | src/monero_crypto.c:1517-1536 | reduces any 32-byte number modulo l, also in place |
| Scalars.LEToLE | src/monero_crypto.c:182-200 | a reduced value survives the trip through a little-endian buffer |
| Scalars.ToLELE | src/monero_crypto.c:182-200 | two buffers holding one number are equal |
| Signatures.ClsagSign | src/monero_clsag.c:243-305 | the in-place byte code, buffers reused as in the source, computes a - c(mu_P p + mu_C z) mod l for all 32-byte inputs, and leaves c reduced |
| Signatures.MlsagSign | src/monero_mlsag.c:185-208 | the in-place byte code computes alpha - c xin mod l for all 32-byte inputs |
| Signatures.ClsagChain | src/monero_clsag.c:274-305 | the chain of reduced operations is the formula |
| Signatures.ClsagCloses | src/monero_clsag.c:170-185 | on any point X of order l (G or the input's H): sX + c mu_P pX + c mu_C zX = aX |
| Signatures.MlsagCloses | src/monero_mlsag.c:185-208 | on any point X of order l: ss X + c xin X = alpha X |
| Responses.ResponseVerifies | src/monero_clsag.c:75-104 | in every run, each real response answers a nonce prepared in the same transaction, and with it a verifier recomputes the points answered then: alpha.G, and alpha.H on the input's base; by CLSAG with the answered key image and z.H, when the response is on the secrets they were prepared with |
| Responses.PreparedPoints | src/monero_clsag.c:75-104 | in every run, the points answered with a nonce on the base x are alpha.G, alpha.x, and the multiples of x by the secrets of the command: p and then z by CLSAG, xin by MLSAG |
| Device.Vstate.constructor | src/monero_init.c:42-70 | power-on state |
| Device.Vstate.Init | src/monero_init.c:42-70 | a restart forgets everything but the random generator's past |
| Device.Vstate.ResetTx | src/monero_open_tx.c:59-97 | whole state after a reset: stages cleared, transcripts fresh, keys gone, gate, mode and signature count kept |
| Device.Vstate.FetchDecrypt | src/monero_io.c:326-370 | length, MAC during a transaction, decryption, range by type |
| Device.Vstate.FetchDecryptKey | src/monero_io.c:372-433 | the view-key placeholder (MACed during a transaction), the refused spend placeholder, or a scalar handle |
| Device.Vstate.OpenTx | src/monero_open_tx.c:105-151 | gate, reset, fresh MAC key, transaction key and its three handles |
| Device.Vstate.CloseTx | src/monero_open_tx.c:156-168 | reset and cleared gate |
| Device.Vstate.SetSignatureMode | src/monero_open_tx.c:182-209 | not during a transaction; real mode needs protocol 3 or 4 |
| Device.Vstate.MaskPaymentId | src/monero_stealth.c:86-89 | the in-place XOR loop |
| Device.Vstate.Stealth | src/monero_stealth.c:28-107 | one retained payment ID per real transaction, only under this transaction's key |
| Device.Vstate.FetchOut | src/monero_key.c:873-906 | argument layout and the boolean check |
| Device.Vstate.Vouch | src/monero_key.c:919-971 | index is the count, one main key, and the main key is r.B for a lone subaddress and R = tx_key.G otherwise |
| Device.Vstate.ChainOut | src/monero_key.c:973-1105 | one record on out_keys, one framed entry on out_eph, one key on addk, in the source's order |
| Device.Vstate.DeriveOut | src/monero_key.c:997-1118 | derivation, amount key, output key, view tag, chains, amount-key handle, count |
| Device.Vstate.GenerateTxoutKeys | src/monero_key.c:852-1126 | the whole command with its gate |
| Device.Vstate.CheckPrefixGate | src/monero_dispatch.c:303-333 | order of the prefix steps |
| Device.Vstate.FetchTimelock | src/monero_prefix.c:755-766 | two varints and nothing else, the second of them the unlock time, and the error word of each failure |
| Device.Vstate.ParsePrefix | src/monero_prefix.c:803-820 | the parser's loop, run on the device's own prefix fields, gives what the one-byte machine gives |
| Device.Vstate.PrefixHashInit | src/monero_prefix.c:729-789 | closes the derivation chains into OUT_EPH and ADDK, restarts the parser, and puts an unlock time other than 0 on screen |
| Device.Vstate.PrefixHashUpdate | src/monero_prefix.c:794-836 | hashes and parses a chunk; the last one needs the parser done, and alone raises PREFIX_FINALIZED |
| Device.Vstate.PrefixHash | src/monero_dispatch.c:303-346 | the whole command |
| Device.Vstate.GenCommitmentMask | src/monero_blind.c:187-212 | needs the finalized prefix and an amount-key handle, and answers the mask of that amount key |
| Device.Vstate.BlindAmount | src/monero_blind.c:28-86 | gate by mode, the amount-key handle, and the blinded pair the in-place arithmetic answers |
| Device.Vstate.BlindBuffers | src/monero_blind.c:41-79 | the in-place blinding on the buffers read from the command |
| Device.Vstate.CheckValidateGate | src/monero_dispatch.c:400-428 | order of the validate steps |
| Device.Vstate.FetchFee | src/monero_prehash.c:36-56 | a type byte and one varint, nothing else, and the error word of each failure |
| Device.Vstate.PrehashInit | src/monero_prehash.c:32-122 | fee step: OUTK closed, transcripts restarted, review owed with the fee and its unit on screen; then exactly the announced pseudo outputs |
| Device.Vstate.UnblindStep | src/monero_blind.c:92-145 | the in-place unblinding on the buffers of an output step |
| Device.Vstate.OpenCommitment | src/monero_prehash.c:260-302 | unblinds, refuses a non-canonical short amount, and compares C with kG + vH, each with its own error word |
| Device.Vstate.ReviewOutput | src/monero_prehash.c:236-379 | chains the record and the commitment, checks change and zero amounts, on the terminal step compares with OUTK and raises OUTPUTS_REVIEWED, and puts the amount with the address or the account on screen |
| Device.Vstate.Show | src/monero_prehash.c:210-234 | the text on screen: the amount, with the address text or the account change goes back to |
| Device.Vstate.PrehashUpdate | src/monero_prehash.c:151-390 | the whole output step |
| Device.Vstate.PrehashFinalize | src/monero_prehash.c:395-489 | accumulates commitments, or closes the prehash after every check and alone raises PREHASH_FINALIZED |
| Device.Vstate.Validate | src/monero_dispatch.c:400-443 | the whole command |
| Device.Vstate.CheckSignGate | src/monero_dispatch.c:446-492 | protocol, stage and order of the signature steps |
| Device.Vstate.StepSignCount | src/monero_clsag.c:50-54 | the 32-bit count steps, and wrapping to 0 is refused |
| Device.Vstate.MlsagPoints | src/monero_mlsag.c:76-96 | alpha.G, and with a base point alpha.Hi and xin.Hi, or an SDK failure |
| Device.Vstate.ClsagPoints | src/monero_clsag.c:75-104 | a.G, a.H, the key image p.H and z.H, or an SDK failure |
| Device.Vstate.MlsagPrepare | src/monero_mlsag.c:28-104 | a new count, a new nonce handle bound to it, and the points answered beside it |
| Device.Vstate.ClsagPrepare | src/monero_clsag.c:42-109 | a new count, a new nonce handle bound to it, and the points answered beside it |
| Device.Vstate.MlsagHash | src/monero_mlsag.c:109-142 | a round starts with mlsagH; its last message gives the reduced digest |
| Device.Vstate.ClsagHash | src/monero_clsag.c:121-164 | history of matches, and a challenge only when the third from last matched |
| Device.Vstate.MlsagSign | src/monero_mlsag.c:147-220 | stages, handles, and the response of the in-place arithmetic |
| Device.Vstate.ClsagSign | src/monero_clsag.c:186-319 | stages, handles, and the response of the in-place arithmetic |
| Device.Vstate.Sign | src/monero_dispatch.c:445-579 | the two signature commands |
| Device.Vstate.Outside | src/monero_dispatch.c:146-219 | a command outside the transaction hands out no nonce, and only a proof touches keccakH |
| Device.Vstate.CheckProtocol | src/monero_dispatch.c:37-57 | the first command fixes the protocol |
| Device.Vstate.Dispatch | src/monero_dispatch.c:124-587 | protocol, access, options, command |
| Device.Vstate.HandleCommand | src/monero_main.c:57-78 | a command while a reply is owed kills the app, and so does every status but the two successes |
| Device.Vstate.Answer | src/monero_ux_nano.c:217-295 | accept approves or not, reject resets, both send the owed reply |
| Device.Vstate.AppMain | src/monero_main.c:43-78 | the main loop over any sequence of events answers, halts and notes exactly as `DeviceRuns.Play`, so what is proved of runs is proved of this class |
| DeviceRuns.NoteOrigin | src/monero_main.c:57-78 | every note of a run was left by a step of the run from the state its predecessors led to |
| Ordering.OrderRun | src/monero_dispatch.c:228-579 | the invariant linking gate, stages and what was noted, in every reachable state |
| Ordering.SignatureComplete | src/monero_dispatch.c:228-579 | in every run, each real response comes after open, derived output, finalized prefix, mask, blind, exactly one fee, terminal output, accept and final step, in this order, with no boundary in between |
| Ordering.ReviewAnswered | src/monero_main.c:57-66 | in every run, a fee, an output or an unlock time put on screen is answered by the very next step: an accept, a reject or a restart |
| Ordering.SignatureAccepted | src/monero_main.c:57-66 | in every run, every review between the opening of a transaction and a real response is followed at once by an accept |
| Ordering.StagesMeanWork | src/monero_types.h:144-152 | in every run, a stage is raised only in a real transaction on protocol 3 or 4, and PREHASH_FINALIZED implies the other three |
| Ordering.HeaderOnScreen | src/monero_prefix.c:755-781 | in every run, the header taken is two varints, the step leaves a review on screen exactly when the second is not 0, and then the 15 characters on screen read as the second |
| Ordering.HeaderTakenIff | src/monero_prefix.c:755-781 | a header is taken exactly when it is two varints, the second of at most 15 digits |
| Ordering.ServedWhen | src/monero_dispatch.c:37-122 | in every run, a command is served only with nothing on screen, in a version the app knows and the transaction started with, the commands of a transaction only inside one, and an address display only outside |
| Layouts.NotesSay | src/monero_dispatch.c:228-579 | in every run, every note of a command says what the bytes of that command say, field by field at their places, for every value of the flags |
| Layouts.SaysDerive | src/monero_key.c:873-906 | an output is derived for the view key, spend key, is_change, is_subaddress, main key at their places; an additional key exists exactly when need is 1, on the secret of its handle; a view tag exactly when the last flag is 1 |
| Layouts.SaysOutput | src/monero_prehash.c:166-206 | an output is reviewed for the flags, keys, amount key and commitment at their places; the encrypted amount that is hashed is its first eight bytes when short and mask and amount when long; and the value and mask are what is at their places, unmasked |
| Layouts.SaysPrepare | src/monero_clsag.c:56-73 | a nonce is prepared on the base and the secrets at their places, by handle or in the clear |
| Layouts.SaysSign | src/monero_clsag.c:199-227 | a response is computed on the handles, z and weights at their places |
| Nonces.NonceRun | src/monero_io.c:109-135 | in every reachable state, the only nonce that verifies is the last one prepared in this transaction |
| Nonces.NonceAnsweredOnce | src/monero_clsag.c:50-71 | in every run, each response answers a nonce prepared in the same transaction under the same count; earlier responses since the last start have smaller counts |
| Nonces.NoNonceTwice | src/monero_mlsag.c:36-70 | no prepared nonce is answered by two responses, in any run |
| ReviewBinding.RecsInjective | src/monero_prehash.c:236-258 | the 98-byte records decode uniquely |
| ReviewBinding.LowBytes | src/monero_prehash.c:267-277 | a value whose high bytes are zero is the number of its low bytes |
| ReviewBinding.ShownExactIff | src/monero_prehash.c:348-359 | the amount shown is the value the commitment binds exactly when the value's high bytes are zero |
| ReviewBinding.ReviewRun | src/monero_prehash.c:61-66 | in every reachable state the two hash chains are the transcripts of the noted lists |
| ReviewBinding.ReviewedIsSigned | src/monero_prehash.c:260-345 | in every run: the list streamed for review when OUTPUTS_REVIEWED is first raised is the list derived, in order; when P1=3 first succeeds, the commitments of late output steps followed by those of P1=3 are the ones closed over; every reviewed commitment is the sum of the multiples of G and H by mask and value, a short v is the amount shown, a payment is shown with an amount, and change that carries anything goes to an account root, the first of which is shown (lists equal, or two explicit byte strings collide) |
| Commitments.ReviewedCommitment | src/monero_prehash.c:279-302 | in every run, in any group with bases G and H, the commitment of every output reviewed is the point kG + vH, for the mask and the value unblinded |
| ReviewBinding.ClosedWereOpened | src/monero_prehash.c:260-345 | in every run, the commitments closed over, and the late ones, are those of output steps that opened them, one for one with the outputs reviewed |
| ReviewBinding.HashedIsClosedIff | src/monero_prehash.c:395-435 | in every run, when P1=3 first succeeds, the commitments hashed into the prehash are those closed over exactly when no output step came after the terminal one; and with a single terminal step they are then all those reviewed (or two explicit byte strings collide) |
| ReviewLimits.LateStepEscapesPrehash | src/monero_dispatch.c:417-434 | from every run that stands after the accepted terminal review of two outputs, a late output step, an accept, one commitment and the final step go through, and at the final note the commitments hashed are one while those closed over are two |
| ReviewLimits.LateStepHappens | src/monero_dispatch.c:417-434 | for every transaction of two payments there is such a run, and such commands |
| ReviewLimits.LongFormShowsLess | src/monero_prehash.c:348-359 | from every run that takes it, a long-form step with a commitment to 2^64 + 1 is reviewed as an amount of 1 |
| Prehash.FedRun | src/monero_prehash.c:52-122 | in every reachable state, with no proof since the fee, keccakH has taken exactly the fee command, the pseudo outputs, the encrypted amounts and the last phase's commitments, in this order |
| Prehash.PrehashIsDigest | src/monero_prehash.c:432-475 | in every run, the fee on screen is the number in the bytes hashed, a pseudo output is taken only when the step before announced it, and the prehash first closed, with no proof since the fee, is the digest of the message, the digest of that material, and the proof |
| Prehash.SignatureCommits | src/monero_dispatch.c:228-579 | end to end: every real response ends a complete transaction and uses a finished round bound to the last prehash closed, which (when it was the first, with no proof) is that digest, starting with the one fee shown and holding the commitments closed over, but for late ones |
| HonestRun.HonestTransactionSigns | src/monero_dispatch.c:228-579 | for every transaction whose SDK calls succeed (any inputs, cut anywhere; up to 254 payments, to addresses, subaddresses or change, with additional keys and view tags, in either form of amount; with or without payment ID, unlock time and pseudo outputs; protocol 3 or 4) there is a run that gives every response asked for, by MLSAG or CLSAG, in order, in which the outputs derived and reviewed are those of the payments and the commitments hashed are theirs |
| HonestRun.HonestCommitmentIs | src/monero_prehash.c:279-302 | the commitment given for each payment of that run is the point kG + vH |
| HonestRun.PremisesMet | src/monero_dispatch.c:228-579 | an environment that meets the premises, for payments of every kind |
| PrefixBinding.BoundRun | src/monero_key.c:1074-1105 | in every reachable state, what the parser compares with is what was derived |
| PrefixBinding.FinalizedPrefixIsDerived | src/monero_prefix.c:794-836 | in every run, whenever PREFIX_FINALIZED is raised the streamed bytes carry exactly the derived outputs, one main key, a first block of exactly the derived additional keys when there are any, and the retained payment ID (or explicit byte strings collide); and the message the prehash signs is the hash of those bytes when no proof ran before |
| PrefixBinding.ParserSafeInEveryRun | src/monero_key.c:1098-1117 | in every run, while a real prefix streams, the parser is in a state its loop may run on, and the configuration is sound or 2^32 outputs collide with none |
| PrefixBinding.SignatureCarriesDerived | src/monero_dispatch.c:228-579 | every real response comes after a complete transaction whose prefix carries the derived outputs, keys and payment ID; and the message in the prehash is the hash of the header and those bytes, when the prefix was finalized once and no proof had run |
| ClsagRounds.HistoryOne | src/monero_clsag.c:135-139 | the three history bits are the matches of the last three messages |
| ClsagRounds.ChallengeIff | src/monero_clsag.c:121-164 | in every reachable state the end of a round yields a challenge exactly when it has at least three messages and the third from last is mlsagH |
| ClsagRounds.ResponseUsesFinishedRound | src/monero_dispatch.c:535-578 | in every run a response is computed with the challenge of a finished round bound to the prehash, never one still open |
| OutputKeys.DerivedRecoverable | src/monero_key.c:919-1118 | in every run, the owner of each derived output (by address, or the wallet for change) finds its one-time key, amount key and view tag from a published key, at the position it was derived at |
| OutputKeys.DerivedSpendable | src/monero_crypto.c:652-708 | in every run, Hs(drv, i) + b opens the one-time key of each derived output whose spend key is b.G |
| Recipients.RecoverableFromPrefix | src/monero_key.c:919-1118 | in every run, when the prefix is finalized, the owner of the i-th derived output finds it at position i from the main key or the additional key at that place, which the streamed prefix carries (or explicit byte strings collide) |
| Recipients.ReviewedRecipientFinds | src/monero_prehash.c:236-345 | end to end: for every real response after one terminal review, the i-th output reviewed is the i-th of the signed prefix, and the recipient reviewed finds it there (or two lists of records collide) |
| Nonces.TxKeyRun | src/monero_open_tx.c:130-140 | in every reachable state of a transaction R is r.G |
| OutputKeys.PaymentIdReadable | src/monero_stealth.c:65-97 | in every run the holder of the view key a payment ID was encrypted to reads it, byte by byte, from the retained nonce with the digest of a*R and 0x8d |
| PaymentIds.ReviewedGoesWith | src/monero_prehash.c:135-148 | in every run, an output reviewed for a recipient while a payment ID is retained is for the view key it was encrypted to, and for no subaddress unless it is all zero |
| PaymentIds.ReviewedRecipientReads | src/monero_prehash.c:196-222 | end to end: the recipient reviewed reads the retained payment ID from the nonce and the main key the signed prefix carries (or two lists of records collide) |
| ReviewText.AmountOnScreen | src/monero_prehash.c:348-365 | in every run, the amount on screen reads as a number at most the one shown and less than 10^7 atomic units off |
| ReviewText.FeeOnScreen | src/monero_prehash.c:68-92 | in every run, the text on screen for the fee starts with a number that is exactly the fee, followed by as much of the unit as 22 characters take |
| ReviewText.AccountOnScreen | src/monero_prehash.c:311-379 | in every run, the account on screen for change that carries anything is the first of the wallet's fifty whose root is the address of the output |
| ReviewText.AddressReadsBack | src/monero_monero.c:131-229 | in every run, on a network the app knows, the address on screen decodes to network byte, spend key, view key, the retained payment ID and the checksum |
| ReviewText.AddressOnScreen | src/monero_prehash.c:196-222 | in every run, whatever network, kind, keys and payment ID have the text on screen as their address, they are those of the output and the payment ID retained |
| AddressReader.DecodesBack | src/monero_monero.c:120-218 | a decoder of blocks of eleven characters reads back every byte string that was encoded |
| ChangeAddress.CheckChangeAddress | src/monero_key.c:791-846 | the in-place index loop answers what the lookup answers, error word included |
| ChangeAddress.RootOfTells | src/monero_key.c:791-846 | the lookup answers the first account root among fifty that matches; refuses with the change word only when none does; and finds one exactly when there is one, unless a derivation fails |
| ChangeAddress.IndexNames | src/monero_key.c:796-819 | the eight bytes of an index are the account and 0, each little-endian on four bytes, and no other bytes are |
| Blinding.Blind | src/monero_blind.c:43-75 | the in-place masking of amount and mask, short and long, on any bytes, with the SDK's refusals |
| Blinding.Unblind | src/monero_blind.c:92-145 | the in-place unmasking, on any bytes, with the SDK's refusals |
| Blinding.UnblindBlind | src/monero_blind.c:28-145 | unblinding undoes blinding for a short value, and for a long-form value and mask below l; in the short form the mask is the one the amount key determines |
| Blinding.UnblindBlindIff | src/monero_blind.c:28-145 | when the SDK answers residues only, the long form gives back exactly the values and masks below l |
| Blinding.BlindedIs | src/monero_blind.c:43-75 | the short form masks the first eight bytes of the value; the long form moves the mask by the scalar of the amount key and the value by the scalar of that scalar, modulo l |
| Blinding.UnblindedIs | src/monero_blind.c:92-145 | the same, back |
| Handles.SwapHalves | src/monero_io.c:140-147 | swaps the two halves in place |
| Handles.HandleCrypt | src/monero_io.c:149-196 | two CBC passes with the halves swapped in between, in place |
| Handles.HandleRoundTrip | src/monero_io.c:137-196 | decryption undoes encryption for any block permutation |
| Handles.OnePassKeepsAHalf | src/monero_io.c:137-139 | one pass would let a spliced handle keep a half |
| Handles.SpliceChangesBoth | src/monero_io.c:137-139 | with two passes, replacing either half changes the first half of the secret, and replacing the second changes both |
| Handles.MacInputExact | src/monero_io.c:118-132 | the 37 MACed bytes agree exactly when bytes, type and (for a nonce) counter agree |
| Handles.FetchExactlyAsMinted | src/monero_io.c:326-370 | a handle minted under the key in force gives its secret, or the range word, exactly when type and, for a nonce, count agree; otherwise it fails the MAC, unless the same bytes were minted in the way they are fetched and the two MACs are equal |
| Handles.HandlesSurvive | src/monero_io.c:109-135 | in every run, while nothing closes or reopens the transaction, its MAC key stays and no handle is forgotten |
| Handles.FetchedInRun | src/monero_io.c:295-370 | in every run, a handle minted at any earlier step of the transaction still going on is fetched exactly as it was minted |
| Handles.KeyExactly | src/monero_io.c:372-433 | where a key is taken in a transaction, 32 zeros with their MAC are the view secret, 32 times 255 are refused, and any other handle needs its MAC and a secret between 0 and l |
| Handles.ViewKeyInRun | src/monero_io.c:372-433 | in every run, while a transaction goes on, 32 zeros with their MAC are the view secret |
| IoBuffer.Io.Receive | src/monero_io.c:563-574 | a command fills the buffer from the start |
| IoBuffer.Io.Hole | src/monero_io.c:88-98 | the overlapping move opens a hole at the cursor, or refuses |
| IoBuffer.Io.Insert | src/monero_io.c:100-107 | new bytes before the cursor, the rest untouched, within the capacity |
| IoBuffer.Io.Inserted | src/monero_io.c:58-69 | cursor and length advance together, or refuse |
| IoBuffer.Io.Fetch | src/monero_io.c:285-293 | the next bytes, exactly when they are there |
| IoBuffer.Io.Discard | src/monero_io.c:71-82 | empties the buffer, and clears it when asked |
| AmountText.Amount2Str | src/monero_crypto.c:1599-1656 | the digit-by-digit code writes the text of the amount, cut to the buffer, NULs to the end |
| AmountText.TakeReads | src/monero_crypto.c:1650-1654 | the first characters of the text read as the amount with the decimals that did not fit set to zero |
| AmountText.ShownReads | src/monero_crypto.c:1599-1656 | for ten characters or more the string is terminated and reads as the floor at the decimals kept, whole units exact |
| AmountText.FullTextExact | src/monero_crypto.c:1599-1656 | with 22 characters the string reads back as the amount |
| AmountText.ReviewTextError | src/monero_prehash.c:359 | in the review's 15 characters less than 10^7 atomic units are not shown |
| AmountText.Uint642Str | src/monero_crypto.c:1567-1594 | the digits of a number, refused when they do not fit |
| AmountText.TerminatedIff | src/monero_crypto.c:1588-1592 | the number is a terminated string exactly when it has fewer digits than the buffer has characters |
| AmountText.UnterminatedTimelock | src/monero_prefix.c:774-780 | a 15-digit unlock time is one that is not terminated |
| Base58.Uint8BeTo64 | src/monero_monero.c:81-118 | the shift-and-or accumulator is the big-endian number of up to eight bytes |
| Base58.WriteBlock | src/monero_monero.c:120-129 | one block in place, in its fixed number of characters |
| Base58.BlockFits | src/monero_monero.c:73 | 58^enc(n) >= 256^n for every block size |
| Base58.BlockInjective | src/monero_monero.c:120-129 | equal encodings of blocks of one size mean equal blocks |
| Base58.WriteAll | src/monero_monero.c:208-218 | full blocks and the last one, in place |
| Base58.PublicKeyText | src/monero_monero.c:131-229 | refuses a short buffer, writes the address and its NUL on a known network, and an empty string otherwise |
| Base58.AddressShape | src/monero_monero.c:145-146 | an address has exactly 95 or 106 characters, all of them of the 58-letter alphabet, and none is NUL |
| Base58.AddressDetermines | src/monero_monero.c:131-229 | the text determines network, kind, spend key, view key and payment ID |

## Left out

- Keccak, SHA-256, AES, HMAC, random numbers and Ed25519 points are SDK calls and enter as parameters.
- monero_ge_fromfe_frombytes (hash to point): field arithmetic through SDK calls.
- Screens, menus, settings and the touch UI, whose accept callback and row capacity differ (src/monero_ux_nbgl.c); only the effect of the button UI's accept and reject is modelled.
- The transport, NVRAM, BIP32 derivation, client version strings, the transaction counter shown while opening, and the scrubbing of secrets.
- Key queries, proofs, unblinding for display and INS_PUT_KEY: their answer and the handles they mint come with the command (`Device.Vstate.Outside`).
- Fake mode signing, beyond its gates and that it raises no stage; the bytes of a reply, beyond the handles, hashes and responses the theorems name.
- TLV helpers of the buffer, which no command uses.
- PrefixBinding.FinalizedPrefixIsDerived: the message signed is tied to the streamed bytes for a prefix finalized once and with no proof since the transaction opened, because a proof re-initialises keccakH and a second last chunk hashes a finalized context.
- ClsagRounds.ResponseUsesFinishedRound: the challenge is the digest of the round's messages when no proof ran inside the round.
- Nonces.NonceAnsweredOnce: counts are compared since the app's last start, where the count restarts; across starts a handle dies with its MAC key, which NoNonceTwice covers.
- ReviewBinding.HashedIsClosedIff: speaks of the prehash first closed since the fee; a second final step runs on contexts that were finalized and not re-initialised.
- Prehash.SignatureCommits: the digest of the material is stated for the prehash first closed, with no proof since the fee, because a proof re-initialises keccakH.
- Device.Vstate.PrefixHashUpdate: asks for a parser state its loop may run on; `Device.Vstate.AppMain` has it from `PrefixBinding.ParserSafeInEveryRun` and asks for nothing but a started app.
- Device.Vstate.Vouch: an SDK failure has one error word, SW_SECURITY_INTERNAL, here and in every other command.
- Device.Vstate.DeriveOut: the reply's bytes are noted (entry, keys, amount key), not laid out in the buffer.
- Device.Vstate.GenerateTxoutKeys: the same.
- Device.Vstate.Outside: some twenty commands that touch no stage are one step that brings its own answer and handles, none of them a nonce.
- Handles.FetchExactlyAsMinted: takes the cipher's round trip as given; it is `Handles.HandleRoundTrip`.
- PrefixAcceptance.AcceptsExactlyTheLanguage: a second additional-keys block is constrained by a digest on a context that was not re-initialised, about which nothing is known.
- PrefixBinding.SignatureCarriesDerived: the message is tied to the bytes for a prefix finalized once and with no proof before; `Prehash.SignatureCommits` has the fee, the amounts and the commitments.
- Recipients.ReviewedRecipientFinds: a review with one terminal step, and places up to 2^32, where the 32-bit output count wraps; a second terminal step needs a matching digest from a context that was not re-initialised.
- PaymentIds.ReviewedRecipientReads: the same.
- HonestRun.HonestTransactionSigns: payments need an additional key each or none, because the count of keys in `extra` is the count of outputs; all responses of one run are by MLSAG or all by CLSAG, as the gate asks; MLSAG is prepared with a base and a handle.
- Layouts.NotesSay: a transaction that does not sign for real leaves no note, and nothing is said of its bytes.
- ReviewText.AddressReadsBack: networks the app knows.
- ReviewText.AddressOnScreen: networks the app knows; on any other the address text is empty.
