# A verified model of the x402 payment path on Solana

This project models, in Dafny 4.11, the parts of the repository that decide where money goes:
Ed25519 point decompression and program-address search, the commitment chain from a gate
decision to on-chain addresses, the payer's loop over its two logs, the pre-signature guard, and
the exact decoders on the way. `dafny verify dfyconfig.toml` checks all of it.

Main results, each for every input or every run:

- `IsOnCurve` decides exactly whether 32 bytes are the compressed form of a curve point, for the
  real prime 2^255 - 19. Nothing is assumed: the primality of the modulus is proved by a
  Pocklington certificate, and Fermat's little theorem, the square roots of one, the fold that
  makes 2 a non-residue, the two-candidate square root, square-and-multiply and extended Euclid
  are proved with it. This is decompression as in section 5.1.3 of RFC 8032, except that the code
  reduces a y of at least p instead of rejecting it; the model does what the code does. The code's
  exit for a vanishing denominator is correct and never taken (`DenominatorNeverVanishes`).
- The address search returns the unique highest bump that decompresses to no point. Unframed
  seeds are ambiguous in general (`UnframedSeedsAmbiguous`), but the five address families and
  the binding are jointly injective. SHA-256 is an arbitrary function to 32 bytes; every
  commitment result says "equal, or here are two colliding messages".
- Two gate decisions whose escrows share an escrow, vault or spent address agree in nonce,
  amount, resource bytes, asset, payee and program, or exhibit a collision.
- Over every sequence of payments on a fresh client a nonce pays at most once, a nonce whose
  decision could not be recorded never pays, every release stands on its own Allow entry, and the
  Allow entries are exactly the releases plus the payments stopped after recording. What a
  released payment submitted is one transfer on which payer, scope and server agree; the contract
  of `Pay` pins what the server receives.
- Over HTTP the demand and the answers are arbitrary. Against every sequence of them, what is sent
  is one transfer of the demanded amount, within the ceiling, to the payer's own merchant, once
  for a nonce and with its own Allow entry (`SentTransfer`, `ExchangeSafety`). With the handler of
  a server on the other side, the HTTP client's run is the in-process run: the same logs and
  outcomes, and the server receives the same payments (`PayHandler`, `PayHandlers`).
- Base58, fixed-point amounts, the transfer guard, attestations, the precompile instruction and
  the hex/base64 wire format have exact acceptance conditions and round trips. Every byte layout
  is also stated on its own, by position and with its constants (`PreimageLayout`,
  `BindingLayout`, `MarshalLayout`, `HeaderFields`, `SubmittedBytes`), and so is what the guard, a
  server and the clients decide and report (`PaysExactly`, `AcceptsExactly`, `ReportedExactly`).

Four things the code does are worth knowing.

- The policy compares the magnitude of the amount, so a negative amount within the ceiling passes
  `Verify` (`NegativeAmountPasses`; the bound holds exactly when the text is not a negative number,
  `PolicyBoundsAmount`). The gate does not allow it, because it binds amounts in 16 unsigned bytes,
  and every amount that is allowed lies between zero and the ceiling (`RunAllowedAmount`,
  `ExchangeAllowedAmount`). Over HTTP the text is the other side's and may carry a sign that is
  no negative number: "+5" passes a gate that reads such a number, spends the nonce and leaves an
  Allow entry, and then the client's own parser refuses it and nothing is sent (`TwoParsers`,
  `SignedAmount`, `PlusFive`).
- `DecodePubkey` refuses texts that spell more than 32 bytes, but fills up those that spell fewer:
  the empty text is the zero key (`EmptyTextAccepted`; `EncodeDecode` says when it is exact).
- The policy walks the keys of the payee map, so a payee mapped to false passes. Accepted payees
  are marked true exactly when the map marks no key false (`MarksHonouredExactly`), and a payer
  whose merchant is marked false does pay it (`FalsePayeeIsPaid`, `PaysMarkedExactly`).
- The transfer is built from the payer's accounts, not from the demand. In process the server
  refuses a transfer it did not ask for. Over HTTP the payment sent is the one demanded, whatever
  the demand, exactly when the scope admits no payee but the payer's merchant and the scope's
  asset is the payer's (`PaysAsDemandedExactly`).

Go strings and byte slices are `seq<byte>`. The loops that update buffers, big integers or fields
are methods with loops, arrays and classes; each is proved against a specification. `Ledger.dfy`
holds the run-level reasoning over what a call does to the logs; `Demo.dfy` and `Http.dfy` show that
every call of either client is such a step. `ResourceServer.received` and `Endpoint.headers` are
logs of the specification only: they let a caller's contract say what left the caller.
`certificate.py` writes `Prime25519.dfy`; the lemmas named `..._Residues`, `Power...` and `Root...`
there are the lines of the certificate.

## Model

| member | source | states |
|---|---|---|
| Primes.Fermat | escrow/pda.go:189-203 | Fermat's little theorem, which the square root exponent rests on |
| Primes.TwoIsNonResidue | escrow/pda.go:129-134 | for every prime that is 5 modulo 8 the half power of 2 is -1: 2 is not a square |
| Primes.RootOfMinusOne | escrow/pda.go:129-134 | 2^((p-1)/4) squares to -1 modulo every such prime |
| Primes.TwoCandidateTest | escrow/pda.go:189-203 | one of the two candidates squares to a iff a is a square: no root is rejected, no false one accepted |
| Pocklington.Criterion | escrow/pda.go:117-121 | the primality criterion that the modulus is proved prime by |
| Prime25519.IsPrimeP | escrow/pda.go:117-121 | the modulus 2^255 - 19 is prime |
| BigInt.Exp | escrow/pda.go:190 | modular exponentiation returns the power's residue |
| BigInt.ModInverse | escrow/pda.go:177-180 | the inverse below the modulus, or none exactly when none exists |
| Curve.CurveD | escrow/pda.go:122-128 | the computed constant is the d with d * 121666 = -121665 |
| Curve.CurveConstant | escrow/pda.go:122-128 | d satisfies its defining equation and is not -1, modulo a prime that is 5 modulo 8 |
| Curve.SqrtM1 | escrow/pda.go:129-134 | the computed constant is a square root of -1 |
| Curve.NoPointWhenVanishing | escrow/pda.go:173-180 | the exit for v = 0 is right: no x solves the equation |
| Curve.Parameters | escrow/pda.go:117-128 | the modulus and d have the properties the rest uses: a prime that is 5 modulo 8, the equation of d, and a square root of 121665 * 60833 |
| Curve.DenominatorNeverVanishes | escrow/pda.go:173-180 | with those parameters d * y^2 + 1 is never 0 modulo p: the exit for v = 0 is never taken |
| Curve.SolutionsAreRoots | escrow/pda.go:166-182 | with v invertible, the solutions are the square roots of u / v |
| Curve.ZeroCase | escrow/pda.go:184-187 | x = 0 is a point iff the sign bit is clear |
| Curve.NonzeroCase | escrow/pda.go:189-203 | away from zero the sign bit never matters |
| Curve.BigEndianValue | escrow/pda.go:158-163 | reversing the bytes before SetBytes gives the little-endian value |
| Curve.Decompresses | escrow/pda.go:163-204 | from y and the sign on: true iff some x of that parity below p solves the curve equation |
| Curve.ModulusIs | escrow/pda.go:117-121 | the modulus is 2^255 - 19 |
| Curve.ReadEncoding | escrow/pda.go:152-163 | the sign bit, and the little-endian integer with the top bit cleared |
| Curve.YAndSign | escrow/pda.go:152-166 | with n the number the bytes denote, the sign is n / 2^255 and y is n modulo 2^255, reduced |
| Curve.OnCurveExactly | escrow/pda.go:152-204 | the bytes are on the curve iff some x below p with the top bit of n as its parity solves the equation with the other 255 bits of n |
| Curve.IsOnCurve | escrow/pda.go:152-204 | true iff the bytes are on the curve, for all 32-byte inputs |
| Curve.PointUnique | escrow/pda.go:142-151 | a y coordinate and a sign belong to at most one point, for the curve and for every odd prime and d but -1 |
| Pda.CreateProgramAddress | escrow/pda.go:60-71 | the hash of the seeds in order, bump, program and marker |
| Pda.PreimageLayout | escrow/pda.go:60-71 | where seeds, bump, program and the marker text sit in the hashed bytes, for any seeds |
| Pda.FamilyPreimage | escrow/pda.go:74-112 | the bytes hashed for each of the five addresses, texts included |
| Pda.FindProgramAddress | escrow/pda.go:50-58 | the highest off-curve bump and its candidate; fails iff all 256 are points |
| Pda.PdaUnique | escrow/pda.go:39-42 | the derived address and bump are unique |
| Pda.FlattenSeeds | escrow/pda.go:74-112 | the seed bytes of the five families |
| Pda.SeedBytesInjective | escrow/pda.go:74-112 | no two families or arguments spell the same seed bytes |
| Pda.PreimageInjective | escrow/pda.go:60-112 | equal preimages: same family, arguments, bump and program |
| Pda.PreimagesEqual | escrow/pda.go:60-71 | two arbitrary seed lists share a preimage iff they flatten alike and bump and program agree |
| Pda.UnframedSeedsAmbiguous | escrow/pda.go:60-64 | a byte moved across a seed boundary leaves the preimage unchanged |
| Pda.AddressCommits | escrow/pda.go:78-98 | equal addresses commit to the same family, arguments and program, or a collision |
| EscrowLink.ComputeBinding | escrow/binding.go:77-113 | the hash of the tagged fixed-width layout |
| EscrowLink.BindingLayout | escrow/binding.go:77-113 | the position of the tag, the version and each of the six fields in the 200 bytes |
| EscrowLink.BindingPreimageInjective | escrow/binding.go:77-92 | equal layouts have all six fields equal |
| EscrowLink.BindingIsNoAddress | escrow/binding.go:40-52 | no binding preimage is an address preimage |
| EscrowLink.FromGate | escrow/link.go:66-112 | accepts iff both addresses decode, the amount is an integer in 1..2^64-1 and payTo is the wallet's token account; fields, cached binding and first error exact |
| EscrowLink.Derive | escrow/link.go:133-150 | the four addresses, or none when one of them does not exist |
| EscrowLink.OccupiedAddresses | escrow/link.go:133-150 | the four messages whose hashes the addresses are, byte for byte |
| EscrowLink.BindingCommits | escrow/binding.go:55-66 | equal bindings cover equal fields, or a collision |
| EscrowLink.SharedAddress | escrow/link.go:126-132 | escrows sharing an address in any roles agree in role, program and all six fields, or a collision |
| EscrowLink.SameAddresses | escrow/link.go:126-132 | the derivation is a function of parameters and program |
| EscrowLink.GateToChain | escrow/link.go:10-34 | from shared address back to nonce, amount, resource, asset and payee, or a collision |
| Base58.IndexBase58 | escrow/programs.go:99-106 | the position of a character in the alphabet, or -1 |
| Base58.AlphabetText | escrow/programs.go:54 | the 58 characters in order |
| Base58.DecodePubkey | escrow/programs.go:67-97 | exact acceptance condition, 32-byte big-endian value, and the two errors |
| Base58.DecodeEncode | escrow/programs_test.go:13-27 | decoding the canonical encoding of any key returns it |
| Base58.EncodeInjective | escrow/programs_test.go:13-27 | different keys have different encodings |
| Base58.SameKey | escrow/programs.go:61-66 | accepted strings give the same key iff they differ only in leading ones |
| Base58.EncodeDecode | escrow/programs.go:85-95 | re-encoding returns the string iff its leading ones are the key's leading zero bytes |
| Base58.AcceptedExactly | escrow/programs.go:67-97 | the texts accepted for a key are its encoding with any number of leading ones dropped |
| Base58.EmptyTextAccepted | escrow/programs.go:80-95 | the empty text is accepted as the zero key, whose encoding is another text |
| Attest.Marshal | escrow/attest.go:70-79 | the 71 bytes of an attestation |
| Attest.MarshalLayout | escrow/attest.go:67-79 | the position of tag, version and binding, and the time as a 64-bit two's complement |
| Attest.MarshalInjective | escrow/attest.go:67-79 | no two attestations marshal alike, negative times included |
| Attest.ParseAttestation | escrow/attest.go:85-99 | accepts exactly the image of Marshal and inverts it; errors exact |
| Attest.BuildInstruction | escrow/ed25519ix.go:50-77 | the header, offsets, key, signature and message; the three length errors |
| Attest.FieldOf | escrow/ed25519ix.go:66-73 | every offset written reads back |
| Attest.HeaderFields | escrow/ed25519ix.go:60-77 | the count, all seven offsets as numbers, and key, signature and message where they say |
| Attest.ParseInstruction | escrow/ed25519ix.go:87-117 | in bounds on arbitrary bytes; the message its checks admit, the key also beside a late error, and exact errors |
| Attest.BuildParse | escrow/ed25519ix.go:79-86 | what is built is readable iff the message has attestation length, and reads back key and message |
| Attest.ReleasePath | escrow/link.go:152-159 | attest, marshal, build, parse returns the attestation, which matches one escrow only, or a collision |
| Decimal.SetStringFormat | demo/demo.go:86-89 | the integer parsed from a printed price is the price |
| Decimal.ParseFormat | demo/demo.go:251-254 | the client reads back the price the server printed |
| Decimal.ParseUintExactly | demo/demo.go:251-254 | the texts read as n are the print of n behind zeros |
| Decimal.SetStringExactly | demo/demo.go:86-89 | the texts read as v are an optional sign and the print of its magnitude behind zeros |
| MicroUsdc.ParseMicroUsdc | cmd/mcp-gateway/main.go:293-336 | succeeds iff grammatical and 1..2^64-1 millionths, returns exactly that; zero, overflow and each other refusal exact |
| MicroUsdc.CheckDigits | cmd/mcp-gateway/main.go:338-345 | true iff nonempty and all digits |
| MicroUsdc.PadFraction | cmd/mcp-gateway/main.go:320-323 | the fraction padded to six digits |
| MicroUsdc.MicrosSplit | cmd/mcp-gateway/main.go:324-331 | whole units and padded fraction combine to the amount read without the point |
| MicroUsdc.PartsUnique | cmd/mcp-gateway/main.go:276-286 | the grammar is unambiguous |
| MicroUsdc.PrintReadsBack | cmd/mcp-gateway/main.go:276-286 | every number printed with any faithful fraction denotes itself |
| MicroUsdc.DenotesExactly | cmd/mcp-gateway/main.go:276-286 | the texts of n millionths are exactly its prints |
| MicroUsdc.SixDigits | cmd/mcp-gateway/main.go:320-323 | every number of millionths below a million has a six-digit fraction |
| MicroUsdc.SameAmount | cmd/mcp-gateway/main.go:276-286 | texts of one amount differ only in trailing fractional zeros or the point |
| Settle.IsTokenProgram | settle/transferchecked.go:59-66 | membership in the accepted programs |
| Settle.Decode | settle/transferchecked.go:75-97 | succeeds on exactly the well-formed TransferChecked instructions, with each of the four errors exact |
| Settle.FindTransfer | settle/transferchecked.go:102-124 | succeeds iff exactly one TransferChecked, well-formed, and returns its fields; errors exact |
| Settle.AssertMatches | settle/guard.go:44-61 | nil iff destination, mint, authority and a u64 amount agree; each error exact |
| Settle.AssertTransactionPays | settle/guard.go:67-73 | nil iff the transaction's one transfer matches the bound payment |
| Settle.PaysExactly | settle/guard.go:63-73 | acceptance in bytes: one instruction is a token program's with tag 12, and its accounts 1 to 3 and amount bytes are the bound ones |
| Settle.OrderIrrelevant | settle/guard.go:63-73 | acceptance is invariant under permuting the instructions |
| Settle.OthersIrrelevant | settle/guard.go:63-73 | and under inserting or removing other instructions |
| Settle.SecondTransferRefused | settle/transferchecked.go:99-101 | and destroyed by any second TransferChecked |
| Settle.BuildTransferChecked | settle/spl.go:42-52 | the ten data bytes and four accounts |
| Settle.DataLayout | settle/spl.go:42-52 | tag 12, the little-endian amount, the decimals |
| Settle.BuiltTransfer | settle/spl.go:36-41 | the guard reads back the built fields and accepts iff they match |
| Gate.Decide | docs/SPEC-X402.md:140-158 | Allow iff the amount is a number of 16 bytes, unexpired, in policy, unspent and not refused otherwise; unavailable on the gate's own reasons and on a malformed amount; the binding recorded |
| Gate.BindableExactly | docs/SPEC-X402.md:83 | an amount can be bound iff it denotes a number of 16 bytes |
| Demo.Verify | demo/demo.go:85-102 | accepts iff the magnitude is within the ceiling, the asset is the scope's and the payee is a key |
| Demo.PolicyBoundsAmount | demo/demo.go:83-92 | an accepted amount is within 0..ceiling iff its text is not a negative number |
| Demo.BindableAmount | docs/SPEC-X402.md:83 | an amount the policy accepts can be bound iff it is not a negative number, and is then within 0..ceiling |
| Demo.NegativeAmountPasses | demo/demo.go:86-92 | "-5" passes a ceiling of 5 |
| Demo.PayeeMarksIgnored | demo/demo.go:96-101 | acceptance depends on the keys of the payee map alone |
| Demo.MarksHonouredExactly | demo/demo.go:96-101 | accepted payees are marked true iff the map marks no key false |
| Demo.PaysMarkedExactly | demo/demo.go:85-102 | everything paid goes to a payee marked true iff the payer's payable merchant is marked true |
| Demo.FalsePayeeIsPaid | demo/demo.go:96-101 | a payer whose only payee is its merchant, marked false, pays it |
| Demo.PolicyOnDemand | demo/demo.go:85-132 | on a server's demand the policy compares keys and prices: the texts lose nothing |
| Demo.ResourceServer.constructor | demo/demo.go:117-120 | a server with its accounts, price and resource, which has received nothing |
| Demo.DemandReads | demo/demo.go:122-132 | scheme, network and resource of a demand, and that asset, payee and amount read back as the server's |
| Demo.AcceptsExactly | demo/demo.go:134-157 | what a server accepts, in bytes: a signed transaction whose only transfer pays its price of its asset to its merchant |
| Demo.ResourceServer.Settle | demo/demo.go:138-157 | releases the resource iff the one transfer pays the server's own demand and is signed; otherwise the first failing check |
| Demo.Client.constructor | demo/demo.go:192-202 | a fresh client has empty logs |
| Demo.Client.Evaluate | demo/demo.go:221-223 | the decision, and the nonce spent on Allow only |
| Demo.Client.Append | demo/demo.go:245-247 | the log grows by the entry or stays as it is |
| Demo.Client.Pay | demo/demo.go:219-280 | new logs and outcome of one call, and exactly the signed payment the server receives, if any |
| Demo.PaidExactly | demo/demo.go:219-280 | the exact condition under which a call pays |
| Demo.AbortExactly | demo/demo.go:255-274 | the guard stops exactly the redirected transfers |
| Demo.SubmittedExactly | demo/demo.go:255-280 | when anything is submitted, and that what is submitted passed the guard for the bound payment |
| Demo.SubmittedBytes | demo/demo.go:159-170 | whatever is submitted is one instruction: program, four accounts, tag, amount and decimals |
| Demo.OutcomeExactly | demo/demo.go:245-280 | the decision and the content an outcome reports |
| Demo.ReleasedPayment | demo/demo.go:262-280 | what a paid call submitted is one transfer on which merchant, asset, price, ceiling and authority agree |
| Demo.RunUnrecorded | demo/demo.go:224-250 | in every run, an unrecorded call leaves the log alone and submits nothing; a denial keeps its class |
| Demo.CallIsLawful | demo/demo.go:219-280 | every call is a lawful step of the ledger |
| Demo.RunIsLawful | demo/demo.go:219-280 | every sequence of calls is a lawful run |
| Demo.RunFollowsPay | demo/demo.go:219-280 | the states and payments of a run are those Pay produces |
| Demo.RunLogsEveryDecision | demo/demo.go:224-250 | one lasting log entry for every call whose append succeeded, denials included, with its decision, binding and time |
| Demo.RunLostAuthorisation | demo/demo.go:238-245 | after an Allow no later call with the nonce is allowed or pays; unrecorded means unpaid |
| Demo.RunReleasedPayment | demo/demo.go:261-280 | in every run a released payment submitted one agreed transfer, and whatever is submitted passed the guard |
| Demo.RunAllowedAmount | demo/demo.go:219-223 | in every run, whatever is allowed is demanded at a price within 0..ceiling |
| Demo.RunSafety | demo/demo.go:224-250 | every release has its own recorded Allow entry, and no other release shares its nonce |
| Demo.RunConservation | demo/demo.go:224-250 | Allow entries are releases plus stopped payments; value released is bounded |
| Demo.PayAll | demo/demo.go:219-280 | a client that pays in sequence ends in the state of the run, with the outcomes of the run |
| Ledger.LogsGrow | demo/demo.go:245-247 | both logs only grow |
| Ledger.EntriesCount | demo/demo.go:208-209 | the log has one entry for every recorded event |
| Ledger.AllowedOnce | demo/demo.go:240-244 | an authorisation is used up by its first Allow, paid or not |
| Ledger.SpentByAllow | demo/demo.go:240-244 | a nonce is spent by Allow and by nothing else |
| Ledger.OwnEvidence | demo/demo.go:224-239 | the Allow entry of a release is its own and stays in the log |
| Ledger.CountsAre | demo/demo.go:230-239 | the counts of entries, releases and stopped payments are cardinalities |
| Ledger.BooksBalance | demo/demo.go:230-239 | Allow entries equal releases plus stopped payments |
| Ledger.OutflowBounded | demo/demo.go:230-239 | value released is at most the ceiling for each Allow entry |
| Ledger.OutflowChange | demo/demo.go:230-239 | changing one event changes the outflow by what that event pays |
| Wire.HexRoundTrip | demo/x402http.go:79-92 | hex decoding inverts encoding |
| Wire.HexTable | demo/x402http.go:77-92 | digits are written in lower case and read in either |
| Wire.HexDecodeExactly | demo/x402http.go:79-92 | hex text is read as bytes iff it is two digits for each, high digit first |
| Wire.Base64RoundTrip | demo/x402http.go:94-132 | base64 decoding inverts encoding, all padding cases |
| Wire.SextetTable | demo/x402http.go:94-132 | the 64 characters in order |
| Wire.EncodeExactly | demo/x402http.go:94-108 | every group of the text spells its bytes, padded, with no spare bit set |
| Wire.DecodeExactly | demo/x402http.go:110-132 | a text is read as bytes iff its groups spell them, whatever the spare bits |
| Wire.NewlineIgnored | demo/x402http.go:147-151 | a line break is skipped wherever it stands |
| Wire.IxsToJson | demo/x402http.go:94-108 | the wire form, instruction by instruction |
| Wire.IxsFromJson | demo/x402http.go:110-132 | the instructions the objects encode, or an error exactly when there are none |
| Wire.WireRoundTrip | demo/x402http.go:94-132 | the only list read from the wire form of a list is that list |
| Wire.CarriesExactly | demo/x402http.go:275-290 | the header written for a payment carries that payment and no other |
| Wire.XPaymentText | demo/x402http.go:275-290 | the header decodes to the text of a version 1 payment in the demand's scheme and network |
| Wire.Handle | demo/x402http.go:141-174 | 200 iff the header carries an accepted payment, 400 iff a header carries none, else the demand; the server gets what the header carries |
| Wire.SubmitOverHttp | demo/x402http.go:94-171 | the settlement decision over HTTP is the in-process one, on the very instructions sent |
| Http.HttpClient.constructor | demo/x402http.go:199-213 | a fresh client has empty logs |
| Http.HttpClient.Pay | demo/x402http.go:228-301 | new logs and outcome of one call on any demand and answer, and exactly the header sent, if any |
| Http.TwoParsers | demo/x402http.go:248-263 | on an amount the policy accepts the client's parser agrees with it iff there is no sign |
| Http.SentExactly | demo/x402http.go:248-291 | the exact condition under which a payment is sent |
| Http.SentTransfer | demo/x402http.go:259-291 | whatever is demanded, what is sent is one transfer of that amount, within the ceiling, to the payer's merchant |
| Http.SentBytes | demo/x402http.go:259-291 | whatever is sent is one instruction, byte for byte the transfer of the amount demanded |
| Http.ReportedExactly | demo/x402http.go:291-300 | an error iff a payment was sent and not answered; paid iff sent and answered 200, with that body |
| Http.ReportedDecision | demo/x402http.go:248-274 | the decision reported, and exactly when the guard stopped the call |
| Http.AllowedAmount | demo/x402http.go:245-248 | whatever the text, an allowed amount is within 0..ceiling |
| Http.SignedAmount | demo/x402http.go:248-263 | a signed amount the policy accepts is never sent; a negative one stops at the gate, any other is allowed by a willing gate, spends the nonce and ends as a violation |
| Http.PlusFive | demo/x402http.go:248-263 | "+5" is such an amount: allowed, recorded, nonce spent, a violation |
| Http.PaysAsDemandedExactly | demo/x402http.go:245-269 | every payment sent is the one demanded iff the scope admits the payer's merchant and asset only |
| Http.HttpClient.PayHandler | demo/x402http.go:141-301 | with the handler on the other side, logs and outcome are those of the in-process call, and the server receives the same payment or none |
| Http.PayHandlers | demo/x402http.go:141-301 | a client paying handlers in sequence has the logs and outcomes of the in-process run |
| Http.RefinesInProcess | demo/x402http.go:225-301 | any answers that are 200 exactly when the server accepts make the HTTP call the in-process call |
| Http.ExchangeIsLawful | demo/x402http.go:248-291 | every HTTP call is a lawful step of the ledger |
| Http.ExchangeRunFollowsPay | demo/x402http.go:248-291 | the states and payments of a run are those Pay produces |
| Http.ExchangeLogsEveryDecision | demo/x402http.go:248-257 | one lasting log entry for every demand read whose append succeeded; a payment's event carries the amount sent |
| Http.ExchangeAllowedAmount | demo/x402http.go:245-248 | against any demands and answers, every allowed amount is within 0..ceiling |
| Http.ExchangeSafety | demo/x402http.go:248-291 | against any demands and answers, what is sent has its own lasting Allow entry and its nonce sends nothing again |
| Http.ExchangeConservation | demo/x402http.go:248-291 | Allow entries are payments sent plus payments stopped; value sent is bounded |

## Left out

- HTTP and JSON: a request is its X-PAYMENT header, the JSON encoder and decoder are parameters, and that a 402 reads back as the demand it was written from is taken as given. Every failure before a requirement is read is one case, and so is every transport error after a payment was sent.
- gate.Evaluate, the spend log and the transparency log belong to another repository: `Gate` states the contract used, with the gate's own further refusals, the binding it records and the success of an append as free inputs. A token is taken as unexpired up to and including its expiry; an amount that is no number of 16 bytes is a malformed demand, and one with a plus sign is read as a number. A gate that is stricter, or calls a refusal by the other name, refuses through those inputs.
- gate.EncodeBase58 (demo/demo.go:93) is in that repository too, and is taken to be the canonical encoding `Base58.Encode`; PolicyOnDemand, MarksHonouredExactly and PaysAsDemandedExactly rest on that.
- big.Int.Uint64 on a negative number (demo/demo.go:90) is documented as undefined: `PolicyAllows` takes the magnitude that its implementation returns.
- SHA-256 and Ed25519 signatures: the hash is an arbitrary function, signatures are opaque bytes.
- math/big and strconv internals: Exp and ModInverse are square-and-multiply and extended Euclid; Bytes, SetBytes, SetString, ParseUint and FormatUint are their mathematical results.
- Error texts: errors are named values, and an outcome has no reason text.
- Demo.ReleasedPayment: speaks of the one TransferChecked only; neither the guard nor the model looks at other token instructions, at decimals or at data beyond ten bytes.
- Well-known addresses: the two program ids are byte constants; that they decode from their base58 text is not proved.
- CheckFreshness, FreshnessDeadline, anchor payloads and Sign: comparisons and constant-shaped appends.
- The on-chain program, the devnet and MCP commands: not in this repository, or input and output only.
