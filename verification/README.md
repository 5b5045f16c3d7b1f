# Proofs about an Ethereum node library

A Dafny model of the parts of the repository that carry its hard properties, with proofs. One module
models one source file or one part of it; modules named ...Law, ...Runs, ...History, ...Progress, ...Invariant and ...Spec hold
what is proved about the model beside it.

- secp-k1 curve arithmetic: `Curve`, `CurveLaw`, `ScalarLaw` (any group), `Sec1` (the sum of SEC 1), with `ModArith`
  and `Bytes` beneath.
- Keccak-f[1600] and the incremental sponge: `KeccakSpec` is FIPS 202 read literally; `KeccakLayout`,
  `KeccakF` and `KeccakF1600` are the unrolled, in-place permutation, `KeccakAsWritten` its first round as the
  text has it, and `KeccakInjective` shows that a round loses nothing; `RoundConstants` and `RhoOffsets`
  derive the tables; `Sponge` is sections 4 and 5.1 of FIPS 202 and its byte-by-byte form; `Digest` is the
  hash object, and `StateBits` the state as one bit string.
- The virtual clock and the alarm: `SimClock`, `Alarm`, with `AlarmSpec` as what the alarm promises.
- Event delivery: `CaseLists`, `FeedProtocol` (atomic steps of any number of subscribers and Sends),
  `FeedInvariant`, `FeedRuns`, `FeedHistory` (whom a Send of a run owes its value), `FeedProgress`, `FeedOf` (Send in
  place, over an array with an aliased prefix, step by step as the protocol), and `TypeMux`, `TypeMuxInvariant`,
  `TypeMuxRuns`, `TypeMuxHistory` (whom a Post of a run owes its event).
- The RLP code generator: `RlpFields` and `RlpTags` (struct tags), `RlpBuild` (types to operation trees, and the theorems
  about the whole generator), `RlpOps` (what an operation tree writes and reads), `RlpByType` and `RlpReadByType` (the
  same read off the types, without trees), `RlpRoundTrip`, `RlpAlike`, `RlpMarkers`
  (what follows the marker of a nil pointer), `RlpCanonical` and `RlpReturns` (the two directions, exactly),
  `RlpWriter` and `RlpReader` (the generated code, what it does, and that it does what the tree says), `RlpGen`
  (the generator with its counter and buffers).
- Number codecs: `HexUtil`, `HexLaw`, `BigExp`, `Mnemonic`, `MnemonicLaw`, `MnemonicInputs`.

A run-time panic of the source is a `None`, a `Panic` or a flag of the state. Words of the permutation are bit strings
of length 64, least significant bit first. Clock times are 64-bit and wrap around; the words of hexutil and of math
are machine words of 32 or 64 bits; other integers are unbounded, see below.

## Where the text departs from its comments

Each of these is modelled both ways: as the comment, the message or the other occurrences have it, and as
the text stands, with the exact condition under which the two agree.

- `crypto/sha3/sha3.go:21`: the state size is 8·8, the comment says 5·5·8. `Digest` takes the rate as a
  parameter, any positive multiple of 8 below 200; `DigestAsWritten.StateSizeAsWritten` has the text.
- `crypto/sha3/sha3.go:32`: minInt compares v1 with itself. `Digest.Min` is the minimum;
  `DigestAsWritten.WriteAsWrittenIff` says which writes the text gets right and that it panics on the others.
- `crypto/sha3/keccakf.go:117-126`: the last row of round 1 goes to bc2, bc3, bc4, bc0, bc1, in the other
  rounds to bc3, bc4, bc0, bc1, bc2. `KeccakF1600.Round1` uses the latter;
  `KeccakAsWritten.PassAsWritten` has the text.
- `event/feed.go:208`: delete appends the wrong half. `CaseLists.Delete` deletes;
  `CaseLists.DeleteAsWrittenIff` and `CaseLists.DeleteAsWrittenNeverRemoves` have the text.
- `rlp/internal/rlpstruct/rlpstruct.go:138`: the order check is inverted with respect to its message; line 175
  spells tail as tali; line 164 asks the pointer type, not what it points to, for the marker of `rlp:"nil"`,
  while the generator's expected output in `rlp/rlpgen/testdata/nil.out.txt` has the marker of the element.
  `RlpFields.Text` selects the reading; the round trip is proved for both.
- `common/math/big.go:228`: Exp squares the caller's base, its comment says base is not changed.
  `BigExp.ExpAsWritten` is the text, `BigExp.ExpOnCopy` the comment, `BigExp.BaseUnchangedIff` the condition.

One more is not a matter of reading, and is modelled as it stands only. The nil check of a tagged pointer
(`rlp/rlpgen/gen.go:429-434`) asks the stream for the kind of the next item and, on the marker, decodes nothing.
The stream of go-ethereum, which the expected outputs in `rlp/rlpgen/testdata` import, takes the header out of
its list when it is asked and holds it until a value is decoded or the list ends. So a marker at the end of a
struct is read as it should be, and one that another item follows is handed to the next field as well, and the
fields after it read too early. `RlpMarkers.NilThenFieldFails` and `RlpMarkers.NilThenOptionalMoves` show it;
`RlpBuild.GeneratedCodeRoundTrips` and `RlpBuild.GeneratedCodeReturnsIff` say for which values the decoder undoes
the encoder.

`crypto/mnemonic.go`, `common/mclock` and `crypto/curve.go` are modelled as they stand. The optional fields of a
struct are encoded after the required ones whatever their order, so the round trip does not need
`ProcessFields` to refuse anything; what needs it is that the encoding follows the struct's order
(`RlpBuild.DeclarationOrderIff`).

## Model

| member | source | states |
|---|---|---|
| `Curve.BitCurve.IsOnCurve` | crypto/curve.go:38-50 | true exactly when y² ≡ x³ + B modulo P |
| `Curve.BitCurve.AffineFromJacobian` | crypto/curve.go:53-63 | the affine point x/z², y/z³ modulo P; None (a nil dereference) exactly when z has no inverse |
| `Curve.BitCurve.Add` | crypto/curve.go:66-69 | the affine form of the Jacobian sum of the two points at z = 1 |
| `Curve.BitCurve.AddJacobian` | crypto/curve.go:73-134 | the temporaries overwritten in place end as the closed chord formulas reduced modulo P, all three results in [0, P) |
| `Curve.BitCurve.Double` | crypto/curve.go:137-140 | the affine form of the Jacobian double at z = 1 |
| `Curve.BitCurve.DoubleJacobian` | crypto/curve.go:142-172 | the temporaries end as the closed tangent formulas reduced modulo P, all three results in [0, P) |
| `Curve.BitCurve.ScalarMult` | crypto/curve.go:175-203 | depends only on the big-endian value n of k and follows the double-and-add recursion on n; nil point exactly for n = 0 |
| `CurveLaw.AddKeepsCurve` | crypto/curve.go:73-134 | for every modulus and every two points of the curve, h = 0 included, the sum satisfies Y² ≡ X³ + B·Z⁶ |
| `CurveLaw.DoubleKeepsCurve` | crypto/curve.go:142-172 | for every modulus and every point of the curve, the double satisfies Y² ≡ X³ + B·Z⁶ |
| `CurveLaw.AddIsChord` | crypto/curve.go:53-134 | for prime P, Add returns exactly when P is odd and x1 ≢ x2, and then the third point of the chord for every slope of the chord |
| `CurveLaw.DoubleIsTangent` | crypto/curve.go:137-172 | for prime P, Double returns exactly when P is odd and y ≢ 0, and then the third point of the tangent |
| `CurveLaw.AddScaled` | crypto/curve.go:73-134 | scaling the inputs to (k²X, k³Y, kZ) scales the sum by the cube of the product of the factors |
| `CurveLaw.DoubleScaled` | crypto/curve.go:142-172 | scaling the input scales the double by the fourth power of the factor |
| `CurveLaw.AffineOfScaled` | crypto/curve.go:53-63 | an invertible scale does not change the affine point, nor whether there is one |
| `CurveLaw.AffineIndependentOfScale` | crypto/curve.go:53-172 | invertible scales of the inputs change neither the affine sum nor the affine double, for every modulus |
| `ScalarLaw.ScalarKeepsCurve` | crypto/curve.go:175-203 | every intermediate point of the scalar loop lies on the curve |
| `ScalarLaw.EvenMultipleApart` | crypto/curve.go:183-196 | below the order a point and an even multiple of it are neither equal nor opposite nor zero |
| `ScalarLaw.ScalarIsMultiple` | crypto/curve.go:175-203 | under a homomorphism to a group, for 0 < n < order the recursion meets no exceptional addition and its image is the n-fold sum |
| `ScalarLaw.ScalarMultIsMultiple` | crypto/curve.go:175-203 | the same for any group and homomorphism: for prime P and 0 < k < N, ScalarMult does not panic, meets no exceptional case of addJacobian, and returns a curve point whose image is k times the base point |
| `Sec1.SumIsAdd` | crypto/curve.go:53-134 | for two points of the curve with different abscissae, an odd prime P: Add gives their sum by section 2.2.1 of SEC 1 |
| `Sec1.SumIsDouble` | crypto/curve.go:53-172 | for every point of the curve: Double gives its sum with itself, infinity being a z without inverse |
| `Sec1.SumOnCurve` | crypto/curve.go:53-172 | that sum of curve points is a curve point |
| `Sec1.DoubleAdds` | crypto/curve.go:142-172 | doubleJacobian doubles the point a triple stands for, whichever triple it is |
| `Sec1.AddAdds` | crypto/curve.go:73-134 | addJacobian adds the points of two triples except when h or a z vanishes; then the points are equal, opposite or infinity |
| `Sec1.PointOfIsHomomorphism` | crypto/curve.go:53-172 | taking a triple to its affine point is the homomorphism that the scalar loop needs |
| `Sec1.ScalarMultIsTimes` | crypto/curve.go:175-203 | for an odd prime P on whose curve the sum is associative, a base point without a multiple below N at infinity, and k < N: ScalarMult meets no exceptional case, does not panic and returns the base point added to itself k times, the nil point exactly for k = 0 |
| `ModArith.ModInverse` | crypto/curve.go:54 | the inverse math/big gives: in [0, m), and present exactly when one exists |
| `ModArith.PrimeInvertible` | crypto/curve.go:54 | modulo a prime exactly the numbers not congruent to 0 have an inverse |
| `KeccakLayout.Place` | crypto/sha3/keccakf.go:38-406 | where lane (x, y) is kept before each round of a pass: one of the 25 places |
| `KeccakLayout.PlaceInColumn` | crypto/sha3/keccakf.go:38-406 | before every round lane (x, y) is in column x, in the row that the round permutes it to |
| `KeccakLayout.PlaceAtEnds` | crypto/sha3/keccakf.go:38-406 | the layout is the identity before the first round and again after the fourth |
| `KeccakLayout.PlaceInjective` | crypto/sha3/keccakf.go:38-406 | in every layout different lanes have different places |
| `KeccakLayout.PlaceShifts` | crypto/sha3/keccakf.go:38-406 | the lane a row reads from a column is where that row of the next layout goes |
| `KeccakLayout.RowPlaceAt` | crypto/sha3/keccakf.go:56-406 | the indices listed in the text, row by row and round by round, are those of the layout |
| `KeccakF.ThetaIsXor` | crypto/sha3/keccakf.go:43-52 | theta on a lane is XOR with the column effect computed from the parities of two columns |
| `KeccakF.RhoIsRotation` | crypto/sha3/keccakf.go:54-62 | rho on a lane is the rotation by the offset, as shifts and an OR |
| `KeccakF.NextLaneIsRound` | crypto/sha3/keccakf.go:54-67 | combining three moved lanes, with the constant at the origin, is the lane after theta, rho, pi, chi and iota |
| `KeccakF.ColumnOfView` | crypto/sha3/keccakf.go:43-52 | column parities do not depend on the layout |
| `KeccakF1600.ColumnEffects` | crypto/sha3/keccakf.go:43-52 | d0 to d4 are the theta effects of the five columns |
| `KeccakF1600.Row4` | crypto/sha3/keccakf.go:209-223 | the last row of rounds 2 to 4, in place: the five places get chi of the moved lanes and nothing else changes |
| `KeccakF1600.RowsMakeRound` | crypto/sha3/keccakf.go:40-406 | five rows written one after another, each reading lanes no earlier row of the round wrote, make one reference round |
| `KeccakF1600.Round1` | crypto/sha3/keccakf.go:43-131 | round 1 of the pass, with the last row as in the other rounds, takes the state seen through layout 0 to layout 1 |
| `KeccakF1600.Round2` | crypto/sha3/keccakf.go:134-223 | round 2 of the pass is one reference round, from layout 1 to layout 2 |
| `KeccakF1600.Round3` | crypto/sha3/keccakf.go:225-314 | round 3 of the pass is one reference round, from layout 2 to layout 3 |
| `KeccakF1600.Round4` | crypto/sha3/keccakf.go:316-405 | round 4 of the pass is one reference round, from layout 3 back to the identity |
| `KeccakF1600.Pass` | crypto/sha3/keccakf.go:38-406 | one pass of the loop body is four reference rounds, for any four constants |
| `KeccakF1600.Permute` | crypto/sha3/keccakf.go:33-407 | six passes in place are the 24 rounds of section 3.4 of FIPS 202 |
| `KeccakAsWritten.LastRowOfRound1` | crypto/sha3/keccakf.go:117-131 | the text of round 1, which loads bc2, bc3, bc4, bc0, bc1: what it writes |
| `KeccakAsWritten.LastRowAsWrittenIff` | crypto/sha3/keccakf.go:117-131 | that text writes what the other rounds would exactly when the five rotated lanes are equal |
| `KeccakAsWritten.LastRowIsRow4` | crypto/sha3/keccakf.go:117-131 | the row that the text is compared with is the last row of the other rounds, lane by lane |
| `KeccakAsWritten.LastRowDecides` | crypto/sha3/keccakf.go:43-131 | after the first four rows the text of the last one completes the reference round exactly when the five rotated lanes, which depend on the input alone, are equal |
| `KeccakAsWritten.Round1AsWritten` | crypto/sha3/keccakf.go:43-131 | round 1 as its text has it, as a whole: it is a reference round from layout 0 to layout 1 exactly when those five lanes of the input are equal |
| `KeccakAsWritten.PassAsWritten` | crypto/sha3/keccakf.go:38-406 | one pass of the loop body as its text has it: four reference rounds exactly when those five lanes of the input are equal, whatever the constants |
| `KeccakAsWritten.OneBitDiffers` | crypto/sha3/keccakf.go:43-131 | the state with one bit set, in lane (0, 3), is one that round 1 as written gets wrong |
| `KeccakInjective.ThetaInjective` | crypto/sha3/keccakf.go:43-52 | states with the same image under theta are the same, so what round 1 gets wrong is not lost again |
| `KeccakInjective.RoundInjective` | crypto/sha3/keccakf.go:40-406 | states with the same image under a whole round are the same, for every constant |
| `RoundConstants.TableIsLfsr` | crypto/sha3/keccakf.go:4-29 | every constant of the table is the one generated by the shift register of section 3.2.5 of FIPS 202 |
| `RhoOffsets.OffsetsFollowTheWalk` | crypto/sha3/keccakf.go:54-131 | the rotation offsets are the triangular numbers along the walk of section 3.2.2 of FIPS 202 |
| `Sponge.AbsorbSplit` | crypto/sha3/sha3.go:81-126 | absorbing a concatenation is absorbing the parts one after the other |
| `Sponge.AbsorbRun` | crypto/sha3/sha3.go:64-97 | a stretch within a block is one XOR of its bytes, and a permutation if it fills the block |
| `Sponge.BlocksByteByByte` | crypto/sha3/sha3.go:81-126 | absorbing whole blocks, as section 4 of FIPS 202 has it, is absorbing byte by byte |
| `Sponge.PaddingIsTwoBits` | crypto/sha3/sha3.go:132-140 | XORing in the bytes of pad10*1 sets the open and the close bit, in one byte if only one is left |
| `Sponge.IncrementalIsHash` | crypto/sha3/sha3.go:81-182 | absorb, set the two bits, permute and squeeze is the sponge of sections 4 and 5.1 of FIPS 202, for every permutation, rate, message and output length |
| `Sponge.SqueezePrefix` | crypto/sha3/sha3.go:153-174 | squeezing more bytes only appends |
| `StateBits.StateByteBits` | crypto/sha3/sha3.go:153-175 | byte j of the state is bits 8j to 8j + 7 of the string of lanes |
| `StateBits.XorByteBits` | crypto/sha3/sha3.go:64-79 | absorbing byte j flips exactly those of its bits that are set |
| `Digest.Digest.UnalignedAbsorb` | crypto/sha3/sha3.go:64-74 | at most the rest of a lane is XORed in at the offset, and counted |
| `Digest.Digest.AbsorbHead` | crypto/sha3/sha3.go:86-97 | the unaligned head of Write absorbs a prefix of the input as if byte by byte and leaves a lane boundary |
| `Digest.Digest.AbsorbLanes` | crypto/sha3/sha3.go:101-117 | one turn of the aligned loop absorbs a prefix as if byte by byte and ends at a block boundary if more than a lane is left |
| `Digest.Digest.Write` | crypto/sha3/sha3.go:81-126 | from any state, for any input, the new state is that of absorbing the bytes one at a time; returns the length |
| `Digest.Digest.SetPadding` | crypto/sha3/sha3.go:132-140 | pad sets the open bit at the offset and the close bit at the end of the block |
| `Digest.Digest.Finalize` | crypto/sha3/sha3.go:143-146 | pads and permutes |
| `Digest.Digest.SqueezeInto` | crypto/sha3/sha3.go:153-174 | the given prefix followed by exactly the wanted number of output bytes, across any number of blocks |
| `Digest.Digest.Sum` | crypto/sha3/sha3.go:177-182 | its argument followed by outputSize bytes of the sponge of what was absorbed, the digest itself unchanged |
| `Digest.Digest.Reset` | crypto/sha3/sha3.go:42-47 | the zero state, nothing absorbed |
| `Digest.SumIsHash` | crypto/sha3/sha3.go:81-182 | after writing m to a fresh digest Sum appends the sponge hash of m with Keccak-f[1600] |
| `DigestAsWritten.MinAsWrittenIff` | crypto/sha3/sha3.go:31-36 | minInt as written is the minimum exactly when its first argument is |
| `DigestAsWritten.WriteAsWrittenIff` | crypto/sha3/sha3.go:81-126 | Write with that minInt absorbs the input exactly when the offset and the length fit, and panics otherwise |
| `DigestAsWritten.OneByteDoesNotFit` | crypto/sha3/sha3.go:87-90 | a first write of one byte does not fit, at any rate |
| `DigestAsWritten.RatesFromComment` | crypto/sha3/sha3.go:20-21 | with the state size of the comment the four constructors have usable rates |
| `DigestAsWritten.StateSizeAsWritten` | crypto/sha3/sha3.go:21-40 | with the state size of the text only NewKeccak224 has a usable rate, and every rate differs |
| `SimClock.Simulated.Less` | common/mclock/simclock.go:169-171 | compares due times |
| `SimClock.WrapKeeps` | common/mclock/mclock.go:21-28 | clock arithmetic changes a number only by multiples of 2⁶⁴ |
| `SimClock.Simulated.Swap` | common/mclock/simclock.go:173-177 | exchanges two places and keeps every index the place of its timer |
| `SimClock.Simulated.Up` | common/mclock/simclock.go:117-125 | sift-up repairs a heap wrong only above one place, moving nothing in or out |
| `SimClock.Simulated.Down` | common/mclock/simclock.go:40-56 | sift-down repairs a heap wrong only below one place, and says whether it moved |
| `SimClock.SwapUp` | common/mclock/simclock.go:169-177 | one step of sift-up leaves the heap wrong only above the parent |
| `SimClock.SwapDown` | common/mclock/simclock.go:169-177 | one step of sift-down leaves the heap wrong only below the child |
| `SimClock.Simulated.HeapPush` | common/mclock/simclock.go:179-183 | adds exactly the new timer and restores the heap |
| `SimClock.Simulated.HeapPop` | common/mclock/simclock.go:185-192 | removes exactly the timer that was first, with index -1, and restores the heap |
| `SimClock.Simulated.HeapRemove` | common/mclock/simclock.go:127-138 | removes exactly the timer at the place and restores the heap |
| `SimClock.Simulated.HeapFix` | common/mclock/simclock.go:140-154 | restores the heap after one due time changed in place |
| `SimClock.Rekey` | common/mclock/simclock.go:147-151 | changing one due time leaves every relation not next to it in order |
| `SimClock.RootFirst` | common/mclock/simclock.go:46 | the timer in place 0 is due no later than any other |
| `SimClock.Simulated.Schedule` | common/mclock/simclock.go:117-125 | adds exactly one pending timer, due at now + d in 64 bits |
| `SimClock.Simulated.NewTimer` | common/mclock/simclock.go:91-101 | the same, with a channel that gets the due time |
| `SimClock.Simulated.Stop` | common/mclock/simclock.go:127-138 | true exactly when the timer was pending; then exactly it is removed, with index -1 |
| `SimClock.Simulated.Reset` | common/mclock/simclock.go:140-154 | the timer is pending afterwards, due at now + d, and the other timers are as they were; refused for a timer without channel |
| `SimClock.Simulated.Collect` | common/mclock/simclock.go:44-49 | takes exactly the timers due by the end off the heap, each once, in order of due time |
| `SimClock.Simulated.Run` | common/mclock/simclock.go:40-56 | sets now to now + d, calls exactly the timers due by then, each once and in order; every timer still pending is later than now |
| `AlarmModel.Alarm.constructor` | common/mclock/alarm.go:19-27 | a new alarm has no timer and an empty channel |
| `AlarmModel.Alarm.Schedule` | common/mclock/alarm.go:53-81 | at most one pending timer is the alarm's; from a valid state exactly one, due as AlarmSpec.Schedule says; unarmed exactly when a deadline ahead had lost its timer |
| `AlarmModel.Alarm.Stop` | common/mclock/alarm.go:37-49 | no timer pending, channel drained, deadline cleared |
| `AlarmModel.Alarm.RunClock` | common/mclock/alarm.go:53-88 | running the clock, in either direction, does to the alarm what AlarmSpec.Run says: a notification exactly when its timer was due, and the timers that were are gone |
| `AlarmModel.Alarm.OtherAfterFunc` | common/mclock/alarm.go:11-16 | another user's timer does not disturb the alarm, also after a clock run backwards |
| `AlarmModel.Alarm.OtherStop` | common/mclock/alarm.go:11-16 | stopping another user's timer does not disturb the alarm, also after a clock run backwards |
| `AlarmModel.Alarm.OtherReset` | common/mclock/alarm.go:11-16 | resetting another user's timer does not disturb the alarm, also after a clock run backwards |
| `AlarmModel.Alarm.Receive` | common/mclock/alarm.go:29-33 | reading the channel takes the notification and nothing else |
| `AlarmModel.SubThenAdd` | common/mclock/alarm.go:77-79 | the subtraction in schedule and the addition in AfterFunc cancel, wrapping included |
| `AlarmModel.NegativeRunLosesTheAlarm` | common/mclock/alarm.go:59-68 | running the clock backwards can leave a fired deadline ahead, and the next Schedule without a timer |
| `AlarmSpec.StaysDueIff` | common/mclock/alarm.go:51-81 | in every run of schedules and clock runs, the promise to be due by t holds throughout exactly when no Schedule past t finds the timer due right then, with no notification waiting |
| `AlarmSpec.ArrivesIff` | common/mclock/alarm.go:51-88 | at every moment of such a run, running the clock to t would give a notification, exactly under the same condition |
| `AlarmSpec.StaysDue` | common/mclock/alarm.go:51-81 | under that condition a deadline ahead is never postponed |
| `AlarmSpec.NotificationArrives` | common/mclock/alarm.go:51-88 | after any Schedule(t) and under that condition, once the clock has run to max(t, now) a notification is in the channel |
| `AlarmSpec.AtDeadlineIsPostponed` | common/mclock/alarm.go:60 | a run in which a timer due exactly now is replaced by a later one |
| `CaseLists.Find` | event/feed.go:196-203 | the first index of a channel, or -1 exactly when it is absent |
| `CaseLists.DeleteKeepsOthers` | event/feed.go:206-209 | deletion removes one occurrence and keeps the rest |
| `CaseLists.DeleteAsWrittenIff` | event/feed.go:206-209 | cs[:index] with cs[:index+1] appended deletes the entry exactly when the list is twice its first index+1 entries |
| `CaseLists.DeleteAsWrittenNeverRemoves` | event/feed.go:206-209 | so on a list headed by the one removeSub case it never deletes |
| `CaseLists.DeleteAsWrittenKeepsTheOnly` | event/feed.go:206-209 | the only inbox entry stays |
| `FeedInvariant.StepKeeps` | event/feedof.go:35-130 | every step of every subscriber, removal and Send, in any interleaving, keeps the invariant |
| `FeedRuns.EntriesAreSubscriptions` | event/feedof.go:35-70 | in every reachable state a channel is in inbox and sendCases as often as it has subscriptions not yet removed |
| `FeedRuns.TokenIsOne` | event/feedof.go:60-69 | in every reachable state the sendLock token is in the channel or with exactly one holder |
| `FeedRuns.RemovalFinds` | event/feedof.go:64-68 | in every reachable state a removal that missed the inbox finds its channel in sendCases, behind the removeSub case |
| `FeedRuns.ReleaseNeverBlocks` | event/feedof.go:126-128 | putting the token back never blocks |
| `FeedRuns.RemovalIsNeverStuck` | event/feedof.go:62-69 | a removal at its select never waits for a receiver |
| `FeedRuns.SendServesOnce` | event/feedof.go:74-130 | in every run a Send that returned served each entry it started from once, but for those dropped before their turn; what it dropped, and what it threw out after serving it, are together just the channels that removals handed to it, and with none handed it served exactly its start |
| `FeedHistory.SendStartsFrom` | event/feedof.go:74-104 | in every run, a Send that returned took over the inbox in some step; with a value of the right type it started from exactly the subscriptions not removed at that step, with one of a wrong type from nothing, and it served nobody more often than that |
| `FeedHistory.SubscriberIsServed` | event/feedof.go:35-130 | in every run, a Send that returned delivered to every channel that was subscribed before the Send took over the inbox and that nobody asked to remove before it returned, whatever other subscriptions of the same channel did |
| `FeedProgress.RemovedIsNotServed` | event/feedof.go:52-130 | in every run, a Send delivers to no channel all of whose subscriptions had been removed when it took over the inbox |
| `FeedProgress.TryTakesOne` | event/feedof.go:98-104 | a turn of the TrySend loop takes the entry it tries, and no other, out of those not yet tried |
| `FeedProgress.EachIsTried` | event/feedof.go:93-107 | in every run, before a Send waits in its select or returns it has tried every entry still to be served, each exactly once since the loop was started |
| `FeedProgress.SelectOffersAll` | event/feedof.go:105-121 | in every run, a Send at its select has something to serve, and every channel neither served nor removed can be chosen |
| `FeedProgress.SendGoesOn` | event/feedof.go:74-130 | in every run, a Send that has not returned has a step of its own, or waits for a token that somebody else has |
| `FeedProgress.RemovalGoesOn` | event/feedof.go:52-70 | in every run, a removal begun and not over is never stuck, in any of its phases |
| `FeedProgress.NeverActiveAgain` | event/feedof.go:52-70 | in every run, a removal once begun is never taken back |
| `FeedProgress.InboxInOrder` | event/feedof.go:35-50 | in every run, the inbox has its channels in the order of their subscriptions |
| `FeedRuns.RunThrowsOut` | event/feedof.go:109-116 | over any run, what a Send has thrown out or is about to throw out grows by exactly the channels handed to it on removeSub |
| `FeedInvariant.InboxMissKeeps` | event/feedof.go:52-60 | when a removal misses the inbox, every entry of its channel is in sendCases |
| `FeedInvariant.MergeKeeps` | event/feedof.go:79-83 | taking over the inbox loses and doubles no entry |
| `FeedInvariant.DroppedLog` | event/feedof.go:109-116 | a removal during Send shrinks cases exactly when the entry was still to be served |
| `FeedOfModel.FindIn` | event/feed.go:196-203 | the loop finds what CaseLists.Find says |
| `FeedOfModel.DeleteFrom` | event/feed.go:206-209 | moves the tail down in the same array, leaving what is beyond the slice |
| `FeedOfModel.DeactivateIn` | event/feed.go:212-216 | exchanges with the last place of the slice; the rest of the array stays |
| `FeedOfModel.AppendTo` | event/feedof.go:81 | the slice with the inbox after it, in place exactly when the array is long enough, else in a new one |
| `FeedOfModel.TryAll` | event/feedof.go:98-104 | the fast path takes the steps of the TrySend loop of the protocol one by one, for whatever receivers are ready, and serves each case at most once, with the value |
| `FeedOfModel.RemoveDuring` | event/feedof.go:109-116 | the entry leaves sendCases, and cases stays an aliased prefix |
| `FeedOfModel.FeedOf.constructor` | event/feedof.go:23-28 | one removeSub case, an empty inbox |
| `FeedOfModel.FeedOf.Subscribe` | event/feedof.go:35-50 | appends the channel to the inbox |
| `FeedOfModel.FeedOf.Remove` | event/feedof.go:52-70 | removes the first entry from the inbox, or else from sendCases |
| `FeedOfModel.FeedOf.MergeInbox` | event/feedof.go:79-88 | sendCases then inbox, every subscriber carrying the value, inbox empty |
| `FeedOfModel.DropsOne` | event/feedof.go:109-116 | the two protocol steps of a removal during Send, on the slice |
| `FeedOfModel.FeedOf.Select` | event/feedof.go:109-121 | takes the step of the protocol that the world chooses, one delivery of the value and nothing thrown out, or no delivery and exactly the channel received on removeSub thrown out; len(sendCases) + len(cases) falls |
| `FeedOfModel.FeedOf.Send` | event/feedof.go:74-130 | whatever receivers, select and removals do, the acts in place are enabled steps of FeedProtocol from Merge to the release of the token and leave its state; so it delivers the value once to each entry present at the start and not dropped before its turn, returns that count, leaves the start less the channels received on removeSub, and clears every Send field |
| `TypeMuxInvariant.StepKeeps` | event/event.go:36-113 | every step of every Subscribe, Post, Unsubscribe and Stop, in any interleaving, keeps the invariant |
| `TypeMuxInvariant.SendIsSafe` | event/event.go:188-201 | a delivery whose postC is not nil has an open channel |
| `TypeMuxInvariant.CloseIsSafe` | event/event.go:173-186 | closewait closes each of its channels for the first time |
| `TypeMuxRuns.NoChannelPanic` | event/event.go:36-201 | no run sends on a closed channel, closes one twice, or closes a nil one |
| `TypeMuxRuns.SilentAfterClosewait` | event/event.go:173-201 | once a closewait has returned, no event reaches the subscription in the rest of any run, whatever snapshots Posts hold |
| `TypeMuxRuns.SilentOnceShut` | event/event.go:36-45 | the same for a subscription closed because the mux had stopped |
| `TypeMuxRuns.StopShutsListed` | event/event.go:89-99 | when Stop is about to return, every listed subscription is shut |
| `TypeMuxRuns.SilentAfterStop` | event/event.go:89-99 | what was registered when Stop returned hears nothing in the rest of any run |
| `TypeMuxRuns.ClosedAfterStop` | event/event.go:36-99 | after Stop has returned every later Post fails and every later subscription is closed |
| `TypeMuxRuns.PostDeliversOnce` | event/event.go:66-83 | a Post that returned delivered exactly once to each subscription of its snapshot but those created later or closing, and to no other; SubscriberHears and OnlySubscribersHear say whom that is |
| `TypeMuxHistory.SubscriberHears` | event/event.go:36-83 | in every run, when a Post has returned, each subscription whose Subscribe had returned before the Post was called, for types that include the event's, has heard it exactly once, and the Post has not failed, if no Unsubscribe of it and no Stop was called before the Post returned |
| `TypeMuxHistory.OnlySubscribersHear` | event/event.go:36-83 | in every run and at any time, a Post has reached a subscription at most once, and only one that asked for the event's type no later than the Post was called |
| `TypeMuxHistory.FailsOnlyStopped` | event/event.go:73-76 | in every run, a Post fails only once some Stop has finished |
| `TypeMuxHistory.ListedUntilDelOrStop` | event/event.go:36-113 | in every run, a subscription whose Subscribe returned is listed under exactly its types until its own del or until a Stop finishes, and what a finished Stop leaves of it is shut unless it has no types |
| `TypeMuxHistory.NeverListedAgain` | event/event.go:101-113 | in every run, from its del on a subscription is in no list |
| `TypeMuxHistory.UnsubscribeShuts` | event/event.go:162-186 | in every run, when an Unsubscribe has returned its subscription is in no list, is shut, and its event channel is closed |
| `TypeMuxHistory.UnsubscribeOnceSubscribed` | event/event.go:36-62 | in every run, a subscription can be unsubscribed as soon as Subscribe has returned it and not before |
| `TypeMuxHistory.StopHoldsMutex` | event/event.go:89-99 | in every run, from its Lock to its return a Stop keeps all others from the lists, and they do not change |
| `TypeMuxHistory.ClockCountsTicks` | event/event.go:67-68 | in every run, events and subscriptions carry the time of their call |
| `TypeMuxRuns.ClosewaitCloses` | event/event.go:173-186 | in every run, once a closewait has returned the event channel is closed |
| `TypeMuxRuns.SelectWaitsForReceiver` | event/event.go:188-201 | in every run, a Post in its select can send exactly until the event channel is closed and can leave exactly once the subscription is closed |
| `TypeMuxRuns.NeverStuck` | event/event.go:89-113 | while a call is underway some step can be taken that waits for no receiver and is no reader that a waiting writer holds back |
| `TypeMuxRuns.RegisterOkIff` | event/event.go:49-59 | Subscribe panics exactly when a type comes twice |
| `TypeMuxHistory.RegisterAdds` | event/event.go:49-59 | Subscribe puts the subscription at the end of the list of each type before the first that comes again, keeps every other list, and succeeds exactly when none comes again |
| `TypeMuxHistory.RegisterAppends` | event/event.go:49-59 | whatever the types, every list stays as it is or gets the subscription at its end |
| `TypeMuxRuns.UnlistRemoves` | event/event.go:101-113 | del removes the subscription from every list and nothing else |
| `TypeMuxHistory.UnlistKeepsOrder` | event/event.go:101-129 | del takes the subscription out of a list and leaves the others in their order |
| `RlpFields.ResolveUnderlying` | rlp/rlpgen/types.go:90-98 | the loop ends at the underlying type |
| `RlpFields.LastPublicField` | rlp/internal/rlpstruct/rlpstruct.go:193-201 | the index of the last exported field, 0 if there is none |
| `RlpFields.ParseTag` | rlp/internal/rlpstruct/rlpstruct.go:147-191 | the loop over the tag words gives their fold, stopping at the first error |
| `RlpFields.ProcessFields` | rlp/internal/rlpstruct/rlpstruct.go:104-145 | the kept fields with their tags, the first tag error, or MustBeOptional exactly when the check refuses |
| `RlpFields.CheckOptional` | rlp/internal/rlpstruct/rlpstruct.go:125-143 | the first field refused is named in the error, with the first optional field before it |
| `RlpTags.ParseIff` | rlp/internal/rlpstruct/rlpstruct.go:147-191 | a tag is accepted exactly when every word fits the field and optional and tail are not both there; each flag then says that its word is there, and the last nil word gives the kind |
| `RlpTags.KeptIff` | rlp/internal/rlpstruct/rlpstruct.go:104-123 | the fields kept are exactly the exported ones without "-", in their order, with the tags of their own words |
| `RlpTags.NilStringIff` | rlp/internal/rlpstruct/rlpstruct.go:49-60 | the types whose nil is the empty string |
| `RlpTags.ByteIff` | rlp/rlpgen/types.go:85-98 | a byte is a uint8 or a type defined from one |
| `RlpFields.IntendedCheckIff` | rlp/internal/rlpstruct/rlpstruct.go:125-143 | read as its message says, the check accepts exactly the structs whose optional fields come last |
| `RlpFields.AsWrittenCheckIff` | rlp/internal/rlpstruct/rlpstruct.go:138 | as written it accepts exactly those whose first field, if any, is optional or tail |
| `RlpFields.CheckAsWrittenIff` | rlp/internal/rlpstruct/rlpstruct.go:138 | when the two verdicts agree |
| `RlpFields.PlainStructRefused` | rlp/internal/rlpstruct/rlpstruct.go:138 | a struct with one plain field is refused as written |
| `RlpFields.TailIsUnknown` | rlp/internal/rlpstruct/rlpstruct.go:175 | a tail tag is never accepted as written |
| `RlpFields.NilAsWrittenIff` | rlp/internal/rlpstruct/rlpstruct.go:157-169 | without tail words the text accepts what it should, and differs exactly when rlp:"nil" decides on a pointer to a string-like type |
| `RlpGen.GenContext.Temp` | rlp/rlpgen/gen.go:109-113 | returns the counter and advances it |
| `RlpGen.GenContext.GenWrite` | rlp/rlpgen/gen.go:226-330 | the imperative generator emits the code of GenWrite and advances the counter as it does |
| `RlpGen.GenContext.WriteOptionalFields` | rlp/rlpgen/gen.go:515-540 | checks first, then each field under its own and all later checks |
| `RlpGen.GenContext.GenDecode` | rlp/rlpgen/gen.go:233-629 | the imperative generator emits the code of GenDecode and advances the counter as it does |
| `RlpGen.GenContext.DecodeOptionalFields` | rlp/rlpgen/gen.go:573-584 | each optional field inside the condition of the one before |
| `RlpGen.GenContext.GenerateEncoder` | rlp/rlpgen/gen.go:698-710 | resets the counter and generates for the receiver obj |
| `RlpGen.GenContext.GenerateDecoder` | rlp/rlpgen/gen.go:683-695 | resets the counter and generates |
| `RlpWriter.WriteRuns` | rlp/rlpgen/gen.go:226-614 | running the code generated for any operation, at any counter and expression, writes exactly the item of the value or fails as it does, and keeps earlier temporaries |
| `RlpWriter.OptionalRuns` | rlp/rlpgen/gen.go:515-540 | the optional fields up to the last non-zero one are written, and no others |
| `RlpWriter.FlagsAny` | rlp/rlpgen/gen.go:528-535 | the condition of a field is true exactly when it or a later field is non-zero |
| `RlpWriter.EncoderWrites` | rlp/rlpgen/gen.go:698-710 | the generated EncodeRLP of a struct writes the item of the value it points to |
| `RlpReader.DecodeRuns` | rlp/rlpgen/gen.go:233-629 | running the code generated for any operation reads the next item as Dec does or fails, leaves the list behind that item, or with its header held when it ended in the nil branch of a tagged pointer, and keeps earlier temporaries |
| `RlpReader.DecOptionalRuns` | rlp/rlpgen/gen.go:573-584 | the nested conditions read optional fields until the list ends |
| `RlpReader.NilPtrDecodes` | rlp/rlpgen/gen.go:413-435 | a tagged pointer is nil exactly on its marker; Kind, which does not know the wanted kind, leaves the header held, and the nil branch reads nothing |
| `RlpReader.EndOfList` | rlp/rlpgen/gen.go:233-629 | with no item left and no header held every decoder fails |
| `RlpRoundTrip.BasicRoundTrip` | rlp/rlpgen/gen.go:167-216 | bools, unsigned integers of their size, strings and byte slices come back |
| `RlpRoundTrip.RoundTrip` | rlp/rlpgen/gen.go:218-629 | for every operation tree and every value in which no item of a struct follows the marker of a tagged pointer, reading what was written succeeds exactly on the readable values and then gives Canon of the value |
| `RlpRoundTrip.OptionalRoundTrip` | rlp/rlpgen/gen.go:515-584 | omitted trailing optional fields are restored, the marker of a tagged pointer among those written coming last |
| `RlpRoundTrip.TakesMarkerIff` | rlp/rlpgen/gen.go:363-404 | which types read the marker of an untagged nil pointer as a value |
| `RlpRoundTrip.EncOkIff` | rlp/rlpgen/gen.go:292-316 | writing fails exactly when a negative big.Int would be written |
| `RlpRoundTrip.CanonAlike` | rlp/rlpgen/gen.go:355-629 | Canon changes a value only by nil or empty slices, nil or pointer to a value written as the marker, and fields that take no part |
| `RlpAlike.AlikeIff` | rlp/rlpgen/gen.go:355-629 | without pointers and ignored fields, alike means the same up to nil or empty slices |
| `RlpCanonical.ShortestOfBytes` | rlp/rlpgen/gen.go:318-330 | bytes without a leading zero are the shortest for their number |
| `RlpCanonical.EncOfDec` | rlp/rlpgen/gen.go:218-629 | for every item an operation accepts: the value has its type, and is written as the same item exactly when every field read an item equal to its own and no list ends in an optional field that reads as zero |
| `RlpReturns.TightReturns` | rlp/rlpgen/gen.go:218-629 | when the item written for a value meets that condition, reading it succeeds exactly on the readable values and gives the value back as far as Alike says |
| `RlpReturns.ReturnsIff` | rlp/rlpgen/gen.go:218-629 | for every value: it comes back as far as Alike says and is then written as the same item exactly when it is readable and its item meets that condition |
| `RlpMarkers.FollowedFails` | rlp/rlpgen/gen.go:413-435 | for every value: when an item follows the marker of a tagged pointer, and every struct where one does has all its optional fields written, reading fails |
| `RlpMarkers.NilThenFieldFails` | rlp/rlpgen/gen.go:413-435 | a tagged nil pointer in front of a required uint8, whatever its value, cannot be decoded |
| `RlpMarkers.NilThenOptionalMoves` | rlp/rlpgen/gen.go:413-435 | with an omitted optional field behind it the decoder succeeds and the values move up by one field |
| `RlpMarkers.NilThenZeroReturns` | rlp/rlpgen/gen.go:413-435 | a value that comes back although an item follows such a marker, so that alone is not the exact condition |
| `RlpBuild.ZeroTyped` | rlp/rlpgen/types.go:47-72 | the zero value of a type is of the type and zero to nonZeroCheck |
| `RlpBuild.MakeOpFits` | rlp/rlpgen/gen.go:631-680 | the operation tree of a type takes every value of it |
| `RlpBuild.MakeOpWellFormed` | rlp/rlpgen/gen.go:452-493 | field indices are in range, no field is listed twice, required or optional, and no slice element is a tagged pointer |
| `RlpBuild.DeclarationOrderIff` | rlp/rlpgen/gen.go:486-490 | the encoding follows the struct's order exactly when the optional fields come last |
| `RlpByType.FieldsInOrder` | rlp/rlpgen/gen.go:474-492 | a field list has strictly increasing indices, exactly those with its flag, and each field has the operation and the zero value of its own type and tags |
| `RlpByType.ArrangedIff` | rlp/rlpgen/gen.go:486-490 | required before optional fields is the order of the struct exactly when the optional ones come last |
| `RlpByType.NonZeroIff` | rlp/rlpgen/types.go:47-73 | nonZeroCheck on a value of a type: a slice without elements is zero whether nil or not |
| `RlpByType.EncIsWritten` | rlp/rlpgen/gen.go:631-680 | for every type the generator accepts and every value: the tree of the type writes the item that Written reads off the type, the tags and the value |
| `RlpByType.StructInOrder` | rlp/rlpgen/gen.go:474-540 | with the optional fields last, item i of a struct's list is the encoding of its i-th kept field by its own type and tags, up to the last field that is required or not zero |
| `RlpByType.NilKindIsItemKind` | rlp/internal/rlpstruct/rlpstruct.go:49-60 | the default marker is of the kind, string or list, as which every value of the type is written |
| `RlpByType.DecTyped` | rlp/rlpgen/gen.go:631-680 | what the tree of a type reads is a value of the type, in the range of its size |
| `RlpByType.GeneratedEncoderWrites` | rlp/rlpgen/gen.go:682-750 | for every type and value: the generated EncodeRLP writes the item that the type, the tags and the value say, or fails on a negative big.Int |
| `RlpByType.GeneratedDecoderReads` | rlp/rlpgen/gen.go:682-750 | for every item the generated decoder accepts: it takes just that item, the value has the type, and the item is the one of that value exactly under the condition of EncOfDec |
| `RlpReadByType.MakeOpOkIff` | rlp/rlpgen/gen.go:631-680 | the generator accepts exactly booleans, sized unsigned integers, strings, big.Int, pointers, slices, byte arrays, and structs whose kept fields are of these and not tail |
| `RlpReadByType.ConvertsIff` | rlp/rlpgen/gen.go:218-256 | the decoder converts a basic value exactly when the stream method returns another type |
| `RlpReadByType.ZeroIsGoZero` | rlp/rlpgen/types.go:47-72 | zero values have nil slices and pointers |
| `RlpReadByType.DecIsRead` | rlp/rlpgen/gen.go:631-680 | for every type the generator accepts and every item: the tree of the type reads what Read says of the type, the tags and the item, or fails |
| `RlpReadByType.GeneratedDecoderIsRead` | rlp/rlpgen/gen.go:682-750 | for every type and every stream: the generated DecodeRLP takes the next item and gives the value that the type and the tags say, or fails when they say none |
| `RlpBuild.GeneratedCodeRoundTrips` | rlp/rlpgen/gen.go:682-750 | for every type and value: the generated encoder fails exactly on a negative big.Int it would write, else writes one item, of which alone the generated decoder takes; when each struct in which an item follows the marker of a tagged pointer has all its optional fields written, it succeeds exactly if there is no such struct and the value is readable, and then gives Canon of the value, which is the value as far as Alike says |
| `RlpBuild.GeneratedCodeReturnsIff` | rlp/rlpgen/gen.go:682-750 | for every type and value without a negative big.Int to write: the generated decoder gives the value back as far as Alike says, to be written as the same item, exactly when it is readable, every field reads an item equal to its own and no list ends in an optional field that reads as zero |
| `RlpBuild.GeneratedDecoderIsCanonicalIff` | rlp/rlpgen/gen.go:682-750 | for every item the generated decoder accepts: it takes just that item, and the generated encoder writes it again exactly under the condition of EncOfDec |
| `HexUtil.PackWord` | common/hexutil/hexutil.go:138-145 | one word gets the value of its digits without wrapping around, or a bad digit is found |
| `HexUtil.PackWords` | common/hexutil/hexutil.go:131-147 | the words, low first and each below its bound, denote the digits' value; absent exactly when a digit is bad |
| `HexUtil.DecodeBig` | common/hexutil/hexutil.go:123-150 | the error of the first failing check, or the value of the digits, for 64-bit and 32-bit words alike; AcceptedIff has the checks and CaseDoesNotMatter the case |
| `HexLaw.NibbleIff` | common/hexutil/hexutil.go:198-209 | the digits are exactly 0-9, a-f and A-F, each with the value of its lower-case form |
| `HexLaw.AcceptedIff` | common/hexutil/hexutil.go:123-209 | accepted exactly with a prefix 0x or 0X, 1 to 64 hex digits of either case and no leading zero unless it is the only digit; otherwise the error names the first requirement that fails |
| `HexLaw.CaseDoesNotMatter` | common/hexutil/hexutil.go:123-209 | for every input: the same result or error for its lower-case form |
| `HexUtil.Big.UnmarshalText` | common/hexutil/json.go:152-181 | the same on the checked text; the receiver changes only on success |
| `HexUtil.UnmarshalAgreesIff` | common/hexutil/json.go:334-348 | agrees with DecodeBig exactly on non-empty input; the empty text is 0 |
| `HexUtil.DigitsValue` | common/hexutil/hexutil.go:165-173 | the digits of a number denote it and have no leading zero |
| `HexUtil.EncodeNegative` | common/hexutil/hexutil.go:165-173 | a negative number is its absolute value behind a minus sign |
| `HexUtil.DecodeEncodeIff` | common/hexutil/hexutil.go:123-173 | DecodeBig undoes EncodeBig exactly for 0 ≤ x < 2²⁵⁶, with the error otherwise |
| `HexUtil.EncodeDecode` | common/hexutil/hexutil.go:123-173 | encoding what was accepted gives the input in lower case |
| `BigExp.U256` | common/math/big.go:191-193 | And with 2²⁵⁶ - 1, in place; that is the remainder modulo 2²⁵⁶, for negative numbers too |
| `BigExp.AndBits` | common/math/big.go:191-193 | a bit of And is set exactly when it is in both arguments, in two's complement |
| `BigExp.AndMask` | common/math/big.go:191-193 | And with n ones is the remainder modulo 2ⁿ, for negative numbers too |
| `BigExp.TopIs` | common/math/big.go:191-193 | the modulus is 1 followed by 64 zeros in hexadecimal |
| `BigExp.WordsRoundTrip` | common/math/big.go:223 | the words of a number denote it, low word first, the last one not 0 |
| `BigExp.TurnKeeps` | common/math/big.go:224-230 | one bit: result times base to the unused exponent is kept modulo 2²⁵⁶ |
| `BigExp.ExpWord` | common/math/big.go:224-230 | one word of the exponent |
| `BigExp.ExpAsWritten` | common/math/big.go:220-233 | the power by repeated multiplication, modulo 2²⁵⁶, for every base and every exponent in another object; the base ends squared once per bit |
| `BigExp.ExpOnCopy` | common/math/big.go:215-233 | the same with both arguments left alone, as the comment says |
| `BigExp.BaseUnchangedIff` | common/math/big.go:228 | the text leaves the base alone exactly when the exponent is 0 or the base is 0 or 1 |
| `Mnemonic.IndexOf` | crypto/mnemonic.go:9-16 | the first place of a word, or -1 exactly when it is absent |
| `Mnemonic.MnemonicEncode` | crypto/mnemonic.go:18-31 | the loop produces the words of every group it visits, or panics as EncodeFrom says |
| `Mnemonic.MnemonicDecode` | crypto/mnemonic.go:33-59 | the loop produces the text of every three words, or panics as DecodeFrom says |
| `MnemonicLaw.Repaired` | crypto/mnemonic.go:45-54 | Go's remainder with n added when negative is the Euclidean one |
| `MnemonicLaw.GroupBackIff` | crypto/mnemonic.go:25-55 | the decoder gets a group's number back exactly when it is below n³ |
| `MnemonicLaw.PadLower` | crypto/mnemonic.go:56 | padding restores the leading zeros of a group, in lower case |
| `MnemonicLaw.EncodesIff` | crypto/mnemonic.go:22-23 | a hex message can be encoded exactly when it is empty, or has 64 or more digits in a multiple of 8 |
| `MnemonicLaw.RoundTripIff` | crypto/mnemonic.go:18-59 | a hex message comes back in lower case exactly when it is empty, or has 64 digits whose groups are all below n³ |
| `MnemonicLaw.RoundTripForAllIff` | crypto/mnemonic.go:18-59 | every 64-digit message comes back exactly when n³ ≥ 2³² |
| `MnemonicInputs.GoDivMod` | crypto/mnemonic.go:25-27 | Go's / and % fit together, the remainder having the sign of the dividend |
| `MnemonicInputs.FormatParses` | crypto/mnemonic.go:24-56 | for every number: reading back what %08x wrote gives the number; 8 characters exactly for -16⁷ < x < 16⁸ |
| `MnemonicInputs.SignsParse` | crypto/mnemonic.go:24 | digits count with or without a sign |
| `MnemonicInputs.NonsenseIsZero` | crypto/mnemonic.go:24 | whatever is no signed hex number is read as 0 |
| `MnemonicInputs.GroupEncodesIff` | crypto/mnemonic.go:23-28 | eight characters of any kind can be encoded exactly when their number is not negative or a multiple of n³, and then are three times the first word if it is negative |
| `MnemonicInputs.EncodesAnyIff` | crypto/mnemonic.go:22-29 | any message can be encoded exactly when every group that the loop visits can |
| `MnemonicInputs.DecodesIff` | crypto/mnemonic.go:37-57 | a list can be decoded exactly when its words come in threes, known or not |
| `MnemonicInputs.NumberOfAny` | crypto/mnemonic.go:41-55 | an unknown word counts as one before the first, differences are taken modulo n |

## Left out

Stated weaker, or with a hypothesis:

- AlarmSpec.NotificationArrives: not so after a Schedule past t that finds the timer due exactly then, see AtDeadlineIsPostponed; StaysDueIff and ArrivesIff have the exact condition.
- AlarmModel.Alarm.Schedule: that the alarm follows AlarmSpec.Schedule is claimed for clocks that were not run backwards; NegativeRunLosesTheAlarm is the other case.
- Sec1.ScalarMultIsTimes: that P is prime and that the sum of SEC 1 is associative are hypotheses.
- TypeMuxRuns.NeverStuck: says that some step is enabled, not that the scheduler is fair.
- FeedRuns.RemovalIsNeverStuck: likewise.
- FeedProgress.SendGoesOn: likewise.
- FeedProgress.RemovalGoesOn: likewise.
- FeedOfModel.FeedOf.Remove: the case in which no Send is in progress; the other is in FeedProtocol.
- FeedOfModel.FeedOf.Send: subscriptions that arrive in the inbox while Send runs are in FeedProtocol, not here.
- BigExp.ExpAsWritten: base and exponent as one object are not modelled.
- MnemonicLaw.RoundTripIff: characters that are not hex digits are encoded as ParseInt reads them, but no round trip is claimed for them.
- SimClock.Simulated.Run: callbacks are recorded in order; one that itself schedules or stops timers is not modelled.
- Digest.Digest.SqueezeInto: the result is a new buffer; writing into the spare capacity of the argument is not modelled.

- RlpReader.GenDecode: for an untagged pointer to an untagged pointer the source emits a double address operator, and for a defined type over a basic one an assignment without conversion; neither compiles in Go, and here both run.
- RlpBuild.GeneratedCodeRoundTrips: when an item follows the marker of a tagged pointer in a struct with optional fields omitted, the decoder may fail, succeed with other values or give the value back; GeneratedCodeReturnsIff has the condition for that case, with the value written as the same item.

Not modelled:

- Curves: ScalarBaseMult, the parameter tables, key generation, marshalling.
- Hash: the suffix bits of section 6.1 of FIPS 202, which the source does not add either.
- Clock: locking, and the condition variable of WaitForTimers. The heap operations are written as Go's container/heap has them, which is not part of this repository.
- Events: reflection and type panics, except a failed type check in Send; in TypeMux timestamps are a logical clock, and Stop walks the map in any order. A section under a mutex that does not block inside is one step, and so is a rendezvous.
- RLP: RawValue, types with their own encoder or decoder, package loading, imports, formatting, the byte encoding of items. Generated text is an abstract syntax tree; block scopes, and the compile errors of comparing structs that hold slices, are not modelled. A defined type over big.Int has no value but the empty struct.
- RLP streams: the stream and the encoder buffer are not part of this repository. A decoding method takes one item; Kind takes the header of the next item out of its list and holds it, and MoreDataInList and ListEnd do not count it. Of the size of a list, only whether it is 0 is modelled.
- Integers other than clock times, machine words and the rotated lanes are unbounded; the mnemonic codec would overflow an int64 only with 2^20 words and more.
- Mnemonics: the concrete word list is any list of distinct words.
- Hexutil: the byte-slice, uint64 and fixed-size codecs, which would only add easier members.
- Math: PaddedBigBytes and U256Bytes, whose length argument is ignored.
- The rpc package, whose protocol is not complete in the repository; log, event/subscription.go, common/types.go, common/compiler, and the size and duration formats.
