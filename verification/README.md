# A verified model of getopt, the Speex narrowband codec and the IAX call table

The repository bundles a GNU-style `getopt`, the Speex codec and an IAX softphone library. This project models
their most intricate parts in Dafny and proves what those parts are for. Code that works step by step on arrays
and records is modelled that way, by methods over arrays and classes, each tied to a function or predicate whose
properties are proved beside it.

- **Getopt** (`Getopt.dfy`): `exchange` and the scanner with its state carried between calls. `GetoptSpec` says
  which words are options, what each call reports and how argv is divided; the scanner is proved against it, call
  by call and for the whole loop. A next scan may begin where the last one ended.
- **Signals, Filters, Resample, Lsp** : the recursive filters, their inverses and impulse response, the polyphase
  interpolator, the quadrature mirror split and the LSP to LPC conversion. `Signals` holds the algebra of finite
  filters they rest on.
- **NBest, OpenLoop, Taps, Ltp, LtpFixed**: the pitch predictor, from the open-loop candidates to the excitation
  that encoder and decoder must share, in exact arithmetic (`Ltp`) and in the integers of the fixed-point build
  (`LtpFixed`).
- **Vq, CbSearch, BeamSearch, CbResults**: the codebook search with its n-best beam, its N = 1 shortcut and the
  decoder of its codes.
- **Powers, Bits, Streams, Frames, FrameLayout, CodecSpeex**: the bit packer, runs of it, the fields of a narrowband
  frame as the submode table lays them out, their places in numbers, and packets of several frames in the three
  termination modes.
- **FixedPoint, QuantLsp, Autocorr**: the fixed-point LSP quantisers and the scaled autocorrelation, with 16-bit and
  32-bit wrap-around written out.
- **MedianFilter, Jitter**: the sliding median and the adaptive jitter buffer, with the trace of a run.
- **Calls, Events**: the call table, its sessions and registrations; the event queue as a state machine over atomic
  steps of several threads.

The floating-point branches are read in exact arithmetic over `real`, with VERY_SMALL taken as 0.

What the code does where one might expect something else, with the exact condition and an input that shows it:

- `pitch_search_3tap` returns the last pitch tried (`iaxclient/lib/libspeex/ltp.c:639`). That is the pitch it kept
  exactly when the last try is strictly the best: `PitchSearch`, `LastIsKept`; at the start of a stream it is not:
  `StreamStart`.
- With a terminator after every frame, decoding goes on only over five or more bits of padding: `EveryIsWhole` says
  for which frames all come back (submodes 4 to 7 and silence; not 1, 2, 3 and 8), `EveryLoses` shows submode 3.
- A bit buffer that grows is cleared (`iaxclient/lib/libspeex/bits.c:229`), and a whole-byte write that is too short
  leaves bits behind that later fields are ORed into: `StreamIsWhole` says when a run loses nothing; `GrowthLoses`,
  `ShortTakeLeavesBits`. `speex_bits_write` leaves its padding behind: `PaddingStays` says when that matters.
- Whole bytes read in behind a partial byte overwrite it (`iaxclient/lib/libspeex/bits.c:163-166`): `JoinedIsWhole`.
- The late branch of the jitter buffer loses what its top bin held: `ShiftUpLoses`, `TopBinLost`.
- Scanning a permuted argv again can change it in one case: `ScanningTwice`, `ScanningChanges`.
- Encoder and decoder of the fixed-point LSP quantisers differ when the error of the rows chosen does not fit 14
  (three stages: 15) bits: `KeptIsRebuilt5`, `KeptIsRebuilt3`. `EveryChoice5` and `SomeChoice5` (and their three-stage
  forms) turn that into bounds on the input; `KeptIsNotRebuilt` is one beyond them.
- Selecting no call changes a call's state without telling the user: `SelectCall`, `SelectThenNone`.
- Events are reordered when somebody locks during their delivery: `LockedWhileDelivering`; `CalmExactly` says that
  nothing else does it.

Verify with `dafny verify dfyconfig.toml`.

## Model

| member | source | states |
|---|---|---|
| GetoptSpec.WordsAreDivided | src/fgcom_getopt.c:288-295 | the option words (with their arguments and "--") and the operands together are the words of argv, none lost and none invented, for every option string |
| GetoptSpec.MissingIsReportedLast | src/fgcom_getopt.c:1117-1162 | a missing argument is reported at most once, as the last report, and exactly when the last option word is left without its argument |
| GetoptSpec.OperandsAreNonOptions | src/fgcom_getopt.c:557-573 | unless "--" ended the scan, every word left over is empty, just "-", or does not begin with "-" |
| GetoptSpec.ScanningTwice | src/fgcom_getopt.c:546-603 | scanning the permuted argv again gives the same option words and the same operands, except exactly when an option at the end lacked its argument and there are operands for it to take; then it takes the first |
| GetoptSpec.ScanningChanges | src/fgcom_getopt.c:546-603 | the input that shows it: option string "a:" and the words x, -a |
| Getopt.SwapBlocks | src/fgcom_getopt.c:346-352 | the inner loop: two blocks of equal length trade places in the array, element by element |
| Getopt.ExchangeBelow | src/fgcom_getopt.c:339-355 | one round with the shorter segment below: what remains is a smaller exchange with the same result |
| Getopt.ExchangeAbove | src/fgcom_getopt.c:356-372 | one round with the shorter segment above |
| Getopt.ExchangeSegments | src/fgcom_getopt.c:337-373 | the whole loop of exchange is the rotation of [bottom, middle) and [middle, top) in place, and touches nothing outside |
| Getopt.ExchangeKeeps | src/fgcom_getopt.c:301-379 | moving the skipped operands behind the options handled since keeps the account of all words and all reports |
| Getopt.SkipKeeps | src/fgcom_getopt.c:567-572 | skipping an operand keeps the account |
| Getopt.StepKeeps | src/fgcom_getopt.c:868-1164 | handling one option character, with or without taking an argument, keeps the account and adds its report |
| Getopt.DashesEnd | src/fgcom_getopt.c:575-603 | "--" ends the scan: argv is options then operands, all in original order, and optind is at the first operand |
| Getopt.WordsEnd | src/fgcom_getopt.c:593-603 | so does the end of argv |
| Getopt.Scanner.Exchange | src/fgcom_getopt.c:301-379 | exchange on the scanner: the rotation, and the two records moved |
| Getopt.Scanner.Initialize | src/fgcom_getopt.c:386-450 | the records and the ordering at the first call; a leading - or + is stripped for that call only |
| Getopt.Scanner.Arrange | src/fgcom_getopt.c:557-573 | PERMUTE: exchange, then skip the operands that follow |
| Getopt.Scanner.Finish | src/fgcom_getopt.c:575-603 | "--" or the end: the division is complete, optind backs up to the operands, and a next scan may begin there |
| Getopt.Scanner.ShortOption | src/fgcom_getopt.c:868-1164 | one option character: value returned, optarg, optopt, optind and nextchar; a listed option gives itself, an unlisted one or a colon gives "?", a missing argument ":" exactly when the option string begins with one |
| Getopt.ListedStep | src/fgcom_getopt.c:868-1164 | by the place where the option string first lists the character: no colon behind it, no argument; else the rest of the word; else nothing after two colons, the next word after one, or the report that it is missing |
| Getopt.ReportReturned | src/fgcom_getopt.c:903-1161 | every report of a character agrees with the option string, and has the value returned for it |
| Getopt.Scanner.Next | src/fgcom_getopt.c:508-621 | one call of getopt from any state: in PERMUTE order one more report, with the value returned for it, or the finished division; in the other orders argv unchanged and the next thing found |
| Getopt.Scanner.ScanAll | src/fgcom_getopt.c:1209-1215 | repeated calls until -1 return exactly the specified reports, each with its value, and leave argv divided with optind at the first operand |
| Signals.FirAssociates | iaxclient/lib/libspeex/filters.c:376-400 | filtering by two coefficient rows in turn is filtering by their convolution: the law the cascades rest on |
| Signals.FirCommutes | iaxclient/lib/libspeex/filters.c:376-400 | the order of two filters does not matter from silence |
| Signals.FirCancels | iaxclient/lib/libspeex/filters.c:341-353 | a filter with leading coefficient 1 can be undone: equal outputs mean equal inputs |
| Signals.FirIsConvolution | iaxclient/lib/libspeex/filters.c:356-370 | from silence the recursive definition of a filter output is the convolution sum |
| Filters.FilterMem2 | iaxclient/lib/libspeex/filters.c:323-338 | the sample loop with its memory shifted in place, also with x and y the same array, computes the run of the filter |
| Filters.IirMem2 | iaxclient/lib/libspeex/filters.c:341-353 | the all-pole loop is the same run with numerator 1 |
| Filters.FirMem2 | iaxclient/lib/libspeex/filters.c:356-370 | the all-zero loop is the same run with denominator 1 |
| Filters.MemoryIsOwed | iaxclient/lib/libspeex/filters.c:328-337 | every memory cell holds what past inputs and outputs still owe to future outputs |
| Filters.DifferenceEquation | iaxclient/lib/libspeex/filters.c:323-338 | for any order and length the output satisfies the direct difference equation of numerator and denominator |
| Filters.BlockByBlock | iaxclient/lib/libspeex/filters.c:323-370 | two blocks in turn with the memory carried give the output of their concatenation |
| Filters.FromSilence | iaxclient/lib/libspeex/filters.c:323-370 | from zero memory the denominator applied to the output is the numerator applied to the input |
| Filters.SynPercepZero | iaxclient/lib/libspeex/filters.c:376-387 | the two filters in turn, the second in place |
| Filters.ResiduePercepZero | iaxclient/lib/libspeex/filters.c:389-400 | the two inverse filters in turn, the second in place |
| Filters.SynEquation | iaxclient/lib/libspeex/filters.c:376-387 | the synthesis filter satisfies A * A2 * y = A1 * x |
| Filters.ResidueUndoesSyn | iaxclient/lib/libspeex/filters.c:376-400 | residue_percep_zero undoes syn_percep_zero for every length and order, with leading coefficients 1 |
| Filters.SynUndoesResidue | iaxclient/lib/libspeex/filters.c:376-400 | and the other way round |
| Filters.ComputeImpulseResponse | iaxclient/lib/libspeex/filters.c:402-432 | the interleaved two-memory loop computes the response of the filter chain |
| Filters.ResponseIsSynOfImpulse | iaxclient/lib/libspeex/filters.c:402-432 | that response is syn_percep_zero of a unit impulse |
| Filters.SynIsConvolution | iaxclient/lib/libspeex/filters.c:376-432 | syn_percep_zero of any signal is its convolution with that response |
| Filters.SynShiftAndAdd | iaxclient/lib/libspeex/ltp.c:337-347 | the response of a signal shifted by one with a new first sample is the shifted response plus the scaled impulse response |
| Resample.FirMemUp | iaxclient/lib/libspeex/filters.c:471-523 | four outputs at a time from the reversed input: every output is the polyphase sum, and the memory becomes the newest samples |
| Resample.UpsampledContinues | iaxclient/lib/libspeex/filters.c:471-523 | a call on the next block continues the output of the calls before |
| Resample.UpsamplingIsInterpolation | iaxclient/lib/libspeex/filters.c:471-523 | started from silence, any number of calls convolve the zero-stuffed whole input with the whole filter |
| Resample.QmfDecomp | iaxclient/lib/libspeex/filters.c:434-467 | the folded loops compute both bands, and the memory becomes the newest samples |
| Resample.FoldedBandsAreFullSums | iaxclient/lib/libspeex/filters.c:449-466 | for a symmetric filter the folded sums are the full sums over all taps, for the filter and for its mirror image |
| Resample.BandsAreDecimatedFilters | iaxclient/lib/libspeex/filters.c:434-467 | any number of calls give every second sample of the whole input through the filter and through its mirror image |
| Lsp.Cascade | iaxclient/lib/libspeex/lsp.c:529-542 | one sample through the delay line Wp: every section of both chains holds its product coefficient |
| Lsp.LspToLpc | iaxclient/lib/libspeex/lsp.c:490-553 | the array computed is the row of LPC coefficients of the two section products |
| Lsp.ProductIsCoef | iaxclient/lib/libspeex/lsp.c:527-551 | the recursion over sections gives the coefficients of their product |
| Lsp.CoefPalindrome | iaxclient/lib/libspeex/lsp.c:527-551 | both products are palindromes |
| Lsp.LpcIsHalfSum | iaxclient/lib/libspeex/lsp.c:490-553 | the coefficients are those of (P + Q) / 2 with P and Q the sum and difference polynomials; ak[0] is 1 and the coefficient not emitted is 0 |
| Lsp.PolynomialsFromLpc | iaxclient/lib/libspeex/lsp.c:490-553 | P and Q are recovered from the coefficients as A(z) plus and minus its mirror image |
| NBest.KeptIsNBest | iaxclient/lib/libspeex/vq.c:147-156 | inserting candidates one by one keeps exactly the N least, in order, the one met first among equals |
| NBest.NBestIsUnique | iaxclient/lib/libspeex/vq.c:147-156 | there is only one such list |
| OpenLoop.InnerProd | iaxclient/lib/libspeex/ltp.c:55-70 | sums of four products at a time are the inner product of the first len/4*4 samples |
| OpenLoop.RunningEnergyExact | iaxclient/lib/libspeex/ltp.c:178-191 | the energy updated from lag to lag is the inner product of each lagged window with itself exactly when the first inner product left no energy out, and so always when the length is a multiple of 4 |
| OpenLoop.OpenLoopNBestPitch | iaxclient/lib/libspeex/ltp.c:152-273 | the pitches left in the array are those of the n-best list of the scores |
| OpenLoop.PitchesAreNBest | iaxclient/lib/libspeex/ltp.c:237-257 | they are the N best lags in descending score, the smaller lag first on ties |
| OpenLoop.ScoreLaw | iaxclient/lib/libspeex/ltp.c:221-230 | the score is the squared correlation over one more than the energy until the gain reaches 16, and 16 times the size of the correlation from there on |
| Ltp.ShiftAndAdd | iaxclient/lib/libspeex/ltp.c:337-347 | one step of the recursion over the taps |
| Ltp.Responses | iaxclient/lib/libspeex/ltp.c:319-348 | the three responses, one filtered and two by shifting and adding, are those of the recursion over the taps, for any impulse response |
| Ltp.TapResponseIsFiltered | iaxclient/lib/libspeex/ltp.c:319-348 | with a complete impulse response, the recursion gives what syn_percep_zero would have made of each tap |
| Ltp.SearchGains | iaxclient/lib/libspeex/ltp.c:457-515 | the gain codebook search finds the first entry of greatest weighted objective |
| Ltp.ObjectiveLaw | iaxclient/lib/libspeex/ltp.c:429-502 | what is maximised: 2048 times the energy the entry explains of the target, less the share held back of what reaches towards it and a charge for the energy of its taps, with nothing held back until the gains sum to more than 64 |
| Ltp.SynOfMix | iaxclient/lib/libspeex/ltp.c:536-545 | the mixture of responses is the response of the mixture |
| Ltp.PitchGainSearch | iaxclient/lib/libspeex/ltp.c:277-549 | for one pitch: the gain index, the excitation it gives, what is left of the target, and its energy |
| Ltp.TrialIsFiltered | iaxclient/lib/libspeex/ltp.c:518-547 | with a complete impulse response, what is left is the target less the filtered excitation |
| Ltp.PitchSearch | iaxclient/lib/libspeex/ltp.c:553-640 | the excitation and indices kept are those of the first candidate of least error; the pitch returned is the last one tried, and it is the pitch kept exactly when the last try is strictly better than every other, always when only one is tried, never on a silent past otherwise; without a pitch to choose, two zeros and silence |
| Ltp.LastIsKept | iaxclient/lib/libspeex/ltp.c:608-639 | with different candidates, the pitch returned is the one kept exactly when the last try is strictly the best |
| Ltp.FavouritesDiffer | iaxclient/lib/libspeex/ltp.c:237-257 | no candidate pitch is tried twice |
| Ltp.Tries | iaxclient/lib/libspeex/ltp.c:586-606 | as many pitches are tried as the complexity asks for, from 1 to 10, and no more than there are |
| Ltp.SilentPastKeepsFirst | iaxclient/lib/libspeex/ltp.c:608-639 | on a silent past all tries are equal, so that the last is the best only if it is the only one |
| Ltp.StreamStart | iaxclient/lib/libspeex/ltp.c:553-640 | a first subframe with two pitches tried, where the pitch returned is not the pitch sent |
| Ltp.DampedGain | iaxclient/lib/libspeex/ltp.c:685-703 | after lost frames the gains are scaled down so that the one-tap gain is the least of what it was, the last gain (0.4 of it after four frames) and 0.95 |
| Ltp.OneTapLaw | iaxclient/lib/libspeex/ltp.h:45 | the one-tap gain of gains that are not negative is their sum; a negative middle gain counts in full, a negative outer one by half |
| Ltp.PitchUnquant | iaxclient/lib/libspeex/ltp.c:642-762 | the decoder writes the excitation of the pitch and gains it unpacks |
| Ltp.DecoderRebuildsSilence | iaxclient/lib/libspeex/ltp.c:595-602 | gain entry 0 rebuilds the silence of an encoder without a pitch |
| Ltp.EncodeThenDecode | iaxclient/lib/libspeex/ltp.c:553-762 | with equal pasts and no loss both ends hold the same excitation |
| Taps.BuildTap | iaxclient/lib/libspeex/ltp.c:323-334 | the per-sample case split builds a tap |
| Taps.BuildTapByRanges | iaxclient/lib/libspeex/ltp.c:733-747 | the three copy loops build the same tap |
| LtpFixed.TryPitch | iaxclient/lib/libspeex/ltp.c:518-534 | fixed point: excitation, error in the high 16 bits and what is left of the target, for the gain index chosen |
| LtpFixed.MixIsGains | iaxclient/lib/libspeex/ltp.c:518-522 | fixed point: each gain meets its own tap, and a mixed sample is the exact sum rounded down by less than 12, for samples of 29 bits |
| LtpFixed.HighRounds | iaxclient/lib/libspeex/ltp.c:525-533 | fixed point: the error is taken of the residual rounded to 32768ths |
| LtpFixed.Search | iaxclient/lib/libspeex/ltp.c:595-639 | fixed point: the first candidate of least error is kept and its indices packed; with no candidate, two zeros, a cleared subframe and an unchanged target |
| LtpFixed.Unquant | iaxclient/lib/libspeex/ltp.c:671-755 | fixed point: the decoder rebuilds the excitation of the indices |
| LtpFixed.SilenceIsRebuilt | iaxclient/lib/libspeex/gain_table.c:32-33 | fixed point: entry 0 of the gain table rebuilds silence from any past |
| LtpFixed.EncodeThenDecode | iaxclient/lib/libspeex/ltp.c:553-755 | fixed point: with equal pasts and no loss both ends hold, bit for bit, the same excitation, also where there was no pitch to try |
| Vq.InsertFromEnd | iaxclient/lib/libspeex/vq.c:147-156 | the insertion from the end of the list is insertion in front of everything worse |
| Vq.Search | iaxclient/lib/libspeex/vq.c:131-157 | the codes found are those of the n-best list of distances, with and without signs |
| Vq.NearestAt | iaxclient/lib/libspeex/vq.c:216-252 | each code found names the row at its rank, with a sign the better sign of that row |
| BeamSearch.ComputeWeightedCodebook | iaxclient/lib/libspeex/cb_search.c:48-81 | every row is the codeword through the impulse response, with its energy |
| BeamSearch.TryOne | iaxclient/lib/libspeex/cb_search.c:366-460 | one extension of one path: put into the new list at its place, or left out, as the n-best list says |
| BeamSearch.Stage | iaxclient/lib/libspeex/cb_search.c:357-460 | one subvector for all ranks: each kept row has the error and the remaining target of its path |
| BeamSearch.SearchBeam | iaxclient/lib/libspeex/cb_search.c:238-482 | the whole search returns the codes of the best path of the beam |
| CbSearch.RestExtends | iaxclient/lib/libspeex/cb_search.c:383-430 | the remaining target of a longer path is that of the shorter less the contribution of the new code |
| CbSearch.ErrorExtends | iaxclient/lib/libspeex/cb_search.c:400-404 | the error of a longer path is that of the shorter plus the energy left in the new subvector |
| CbSearch.PathAdded | iaxclient/lib/libspeex/cb_search.c:491-519 | adding the excitation of a path adds to each subvector the row its code names, entry by entry in 1/32, negated for a code beyond the rows |
| CbResults.ErrorByKey | iaxclient/lib/libspeex/cb_search.c:366-404 | the error of an extension is the error of the path plus a constant plus twice the distance of the vector quantiser |
| CbResults.BeamKeepsBest | iaxclient/lib/libspeex/cb_search.c:404-455 | of all paths tried at a stage the beam keeps the N of least error |
| CbResults.BeamSorted | iaxclient/lib/libspeex/cb_search.c:431-455 | the kept list is sorted by error |
| CbResults.BeamIsBestOfAll | iaxclient/lib/libspeex/cb_search.c:357-460 | no extension of any kept path by any codeword of the book, with the better of its signs, is better than a path kept: trying only N codes per rank loses nothing |
| CbResults.BeamOfOne | iaxclient/lib/libspeex/cb_search.c:87-217 | with N = 1 the beam is the greedy path |
| CbResults.SearchOne | iaxclient/lib/libspeex/cb_search.c:87-217 | the N = 1 shortcut chooses the codes of the general search with N = 1 |
| CbResults.SplitCbSearch | iaxclient/lib/libspeex/cb_search.c:238-527 | the whole function: codes, the row of each code added to its subvector of the excitation with its sign, and target updated |
| CbResults.Candidates | iaxclient/lib/libspeex/cb_search.c:283-289 | as many candidates are kept as the complexity asks for, from 1 to 10 |
| CbResults.ErrorIsEnergyLeft | iaxclient/lib/libspeex/cb_search.c:357-526 | the error of a complete path is the energy of the target less the filtered excitation |
| CbResults.SplitCbUnquant | iaxclient/lib/libspeex/cb_search.c:530-586 | the decoder adds to each subvector the row of its index, entry by entry in 1/32, with its sign |
| CbResults.CodeSplits | iaxclient/lib/libspeex/cb_search.c:558-565 | a code splits into the sign and index the decoder reads |
| CbResults.DecoderFindsCodes | iaxclient/lib/libspeex/cb_search.c:484-586 | the decoder finds the codes the encoder packed |
| BitSpec.ValueOfField | iaxclient/lib/libspeex/bits.c:240-256 | a number survives a field exactly when it fits |
| BitSpec.SignedValueOfField | iaxclient/lib/libspeex/bits.c:260-269 | in two's complement, exactly when it is in the signed range |
| BitSpec.RoundTrip | iaxclient/lib/libspeex/bits.c:216-291 | any list of fields is read back and nothing behind it is touched |
| BitSpec.RoundTripOfValues | iaxclient/lib/libspeex/bits.c:216-291 | the values come back exactly when every one fits its width |
| Bits.BitPacked | iaxclient/lib/libspeex/bits.c:240-256 | one round of the packing loop appends one bit, ORed into what the byte holds |
| Bits.ByteIsValue | iaxclient/lib/libspeex/bits.c:240-250 | the bits of a byte are those of its number, the highest first |
| Bits.SpeexBits.Pack | iaxclient/lib/libspeex/bits.c:216-258 | packing appends a field; a buffer that has to grow is cleared, so that all earlier bits become zero; without growth nothing happens |
| Bits.SpeexBits.InsertTerminator | iaxclient/lib/libspeex/bits.c:354-360 | a zero and ones up to the last bit but one of the byte |
| Bits.SpeexBits.Write | iaxclient/lib/libspeex/bits.c:169-194 | the bits so far with padding, as far as there is room; pointers restored, the padding left in the byte |
| Bits.PaddingStays | iaxclient/lib/libspeex/bits.c:175-182 | after a write the byte is clean exactly when at most two of its bits were free |
| Bits.SpeexBits.WriteWholeBytes | iaxclient/lib/libspeex/bits.c:196-214 | what is written, and what is kept: the bits of the byte that follows the bytes written, and behind them what that byte held |
| Streams.StreamIsWhole | iaxclient/lib/libspeex/bits.c:196-258 | over every run of packs and whole-byte writes, output and held bits are what was packed, exactly when every field fitted, or the buffer could grow and held no set bit, and every write had room for the whole bytes there were |
| Streams.EnoughRoom | iaxclient/lib/libspeex/bits.c:196-258 | a caller who packs fewer bits than the buffer holds, and always offers that many bytes for the output, loses nothing |
| Streams.GrowthLoses | iaxclient/lib/libspeex/bits.c:220-239 | a buffer of one byte that grows with seven ones in it: the ones are lost |
| Streams.ShortTakeLeavesBits | iaxclient/lib/libspeex/bits.c:205-213 | twelve ones, a write of no bytes, and four zeros packed make eight ones: a field is ORed into the bits left over |
| Streams.RunOn | iaxclient/lib/libspeex/bits.c:196-258 | a run of packs and whole-byte writes on the object is the run of the stream it stands for, byte for byte, with growth and refusal; so the object keeps everything exactly under that condition |
| Streams.PackThenUnpack | iaxclient/lib/libspeex/bits.c:78-291 | on the object: fields packed after a reset, rewound and unpacked come back modulo their widths, as the values given exactly when all fit; nothing is left and nothing overflows |
| Bits.SpeexBits.TakeBits | iaxclient/lib/libspeex/bits.c:277-290 | the reading loop gives the number its bits stand for |
| Bits.SpeexBits.UnpackUnsigned | iaxclient/lib/libspeex/bits.c:271-291 | the next field, or zero and the sticky overflow flag with the cursor where it was |
| Bits.SpeexBits.UnpackSigned | iaxclient/lib/libspeex/bits.c:260-269 | the same field as a signed number |
| Bits.SpeexBits.PeekUnsigned | iaxclient/lib/libspeex/bits.c:293-320 | the value the next unpack would give, without moving |
| Bits.SpeexBits.Peek | iaxclient/lib/libspeex/bits.c:322-329 | the next bit, without moving |
| Bits.SpeexBits.Rewind | iaxclient/lib/libspeex/bits.c:87-92 | everything packed can be read from the start |
| Bits.SpeexBits.Advance | iaxclient/lib/libspeex/bits.c:331-339 | fields skipped, never past the end |
| Bits.SpeexBits.Remaining | iaxclient/lib/libspeex/bits.c:341-347 | -1 after an overflow, otherwise exactly the number of bits that can still be read |
| Bits.SpeexBits.ReadFrom | iaxclient/lib/libspeex/bits.c:94-122 | the bytes given, as many as the buffer holds or can grow to |
| Bits.SpeexBits.Flush | iaxclient/lib/libspeex/bits.c:124-135 | unread bits are kept, whole bytes already read make room |
| Bits.SpeexBits.ReadWholeBytes | iaxclient/lib/libspeex/bits.c:137-167 | for every number of bits held: new bytes go where the last partial byte begins, overwrite it, and as many bits of the byte behind them are counted in its place; with no partial byte, or nothing new, they follow the unread bits; if reallocation fails fewer are taken |
| Bits.JoinedIsWhole | iaxclient/lib/libspeex/bits.c:161-166 | new bytes follow the unread bits, whatever they are, exactly when there is no partial byte or nothing new |
| FrameFields.FrameSizeIs | iaxclient/lib/libspeex/modes.c:177-374 | for every submode the fields the encoder packs add up to the table's frame size, and 5 bits for silence |
| FrameLayout.Submode1 | iaxclient/lib/libspeex/modes.c:177-199 | submode 1: which values a frame admits, and the offset and width of each field of its 43 bits |
| FrameLayout.Submode8 | iaxclient/lib/libspeex/modes.c:202-224 | submode 8: the same for 79 bits |
| FrameLayout.Submode2 | iaxclient/lib/libspeex/modes.c:227-249 | submode 2: the same for 119 bits |
| FrameLayout.Submode3 | iaxclient/lib/libspeex/modes.c:252-274 | submode 3: the same for 160 bits, with pitch in 7 bits, gain in 5, energy in 1 and four codes of 5 |
| FrameLayout.Submode4 | iaxclient/lib/libspeex/modes.c:277-299 | submode 4: the same for 220 bits |
| FrameLayout.Submode5 | iaxclient/lib/libspeex/modes.c:302-324 | submode 5: the same for 300 bits |
| FrameLayout.Submode6 | iaxclient/lib/libspeex/modes.c:327-349 | submode 6: the same for 364 bits |
| FrameLayout.Submode7 | iaxclient/lib/libspeex/modes.c:352-374 | submode 7: the same for 492 bits, with the codes twice |
| FrameLayout.WidebandLayers | iaxclient/lib/libspeex/modes.c:421-530 | the sizes of the wideband layers are those of their fields |
| FrameFields.ParsePutFrame | iaxclient/lib/libspeex/nb_celp.c:1182-1592 | the decoder reads back every frame the encoder can produce, field by field, and stops at its end |
| FrameFields.ParseBehindWideband | iaxclient/lib/libspeex/nb_celp.c:1182-1224 | one or two wideband layers in front of a frame are passed over |
| FrameFields.NoSubframeBits | iaxclient/lib/libspeex/nb_celp.c:1364-1376 | submode 1 has nothing in its subframes, so that its extra bits may be written last and read first |
| Frames.NbEncode | iaxclient/lib/libspeex/nb_celp.c:488-905 | the fields packed in the encoder's order |
| Frames.NbDecode | iaxclient/lib/libspeex/nb_celp.c:1182-1592 | the fields read in the decoder's order, or the reason there is no frame, also beyond the end of the data |
| CodecSpeex.EncodePacket | iaxclient/lib/codec_speex.c:98-149 | the bytes written for the frames of one call, in every termination mode, cut off where the room ends |
| CodecSpeex.DecodePacket | iaxclient/lib/codec_speex.c:43-96 | the frames the decoding loop makes of a packet; an empty packet is concealed and leaves the bits as they are |
| CodecSpeex.NormalParses | iaxclient/lib/codec_speex.c:43-149 | one terminator at the end: exactly the frames encoded, as far as there is room |
| CodecSpeex.NeverIsWhole | iaxclient/lib/codec_speex.c:43-149 | no terminators, whole bytes per frame: exactly the frames encoded, as far as there is room |
| CodecSpeex.EveryParses | iaxclient/lib/codec_speex.c:80-86 | a terminator after every frame: the frames up to the first whose padding is shorter than 5 bits |
| CodecSpeex.EveryIsWhole | iaxclient/lib/codec_speex.c:80-86 | so all frames come back exactly when all but the last have a size that is 4, 5 or 6 modulo 8 |
| CodecSpeex.EveryLoses | iaxclient/lib/codec_speex.c:80-86 | behind a frame of submode 3 nothing comes back |
| QuantLsp.LspQuant | iaxclient/lib/libspeex/quant_lsp.c:93-120 | the first codeword of least distance, as computed in 32 bits, is taken from the residual |
| QuantLsp.LspWeightQuant | iaxclient/lib/libspeex/quant_lsp.c:123-149 | the same by weighted distances |
| QuantLsp.DistIsSquares | iaxclient/lib/libspeex/quant_lsp.c:102-108 | the computed distance is the sum of squares when nothing wraps |
| QuantLsp.MultQ15IsFloor | iaxclient/lib/libspeex/fixed_generic.h:82-83 | the product in two halves is the exact product rounded down |
| QuantLsp.FirstLeastIsOne | iaxclient/lib/libspeex/quant_lsp.c:110-114 | there is only one first codeword of least distance |
| QuantLsp.LspQuantNb | iaxclient/lib/libspeex/quant_lsp.c:152-204 | five stages: the rows chosen and the quantised values kept |
| QuantLsp.LspQuantLbr | iaxclient/lib/libspeex/quant_lsp.c:235-274 | three stages |
| QuantLsp.LspUnquantNb | iaxclient/lib/libspeex/quant_lsp.c:206-232 | the decoder builds each value from equally spaced starts and one row of each codebook, every stage at half the scale |
| QuantLsp.LspUnquantLbr | iaxclient/lib/libspeex/quant_lsp.c:276-295 | the same from three rows |
| QuantLsp.KeptIsRebuilt5 | iaxclient/lib/libspeex/quant_lsp.c:152-232 | whatever rows were chosen, encoder and decoder agree at a coordinate exactly when the error of the choice has 14 bits |
| QuantLsp.KeptIsRebuilt3 | iaxclient/lib/libspeex/quant_lsp.c:235-295 | in three stages, exactly when it has 15 |
| QuantLsp.KeptWithoutOverflow | iaxclient/lib/libspeex/quant_lsp.c:152-295 | in particular where the last residual fits 16 bits before it is stored |
| QuantLsp.EveryChoice5 | iaxclient/lib/libspeex/quant_lsp.c:152-232 | five stages agree for every choice of codewords exactly when the value lies between 1080 below and 1023 above the start of the quantiser |
| QuantLsp.SomeChoice5 | iaxclient/lib/libspeex/quant_lsp.c:152-232 | and for some choice exactly when it lies between 15360 below and 15303 above |
| QuantLsp.EveryChoice3 | iaxclient/lib/libspeex/quant_lsp.c:235-295 | three stages: for every choice exactly between 10288 below and 10239 above |
| QuantLsp.SomeChoice3 | iaxclient/lib/libspeex/quant_lsp.c:235-295 | and for some choice exactly between 22528 below and 22479 above |
| QuantLsp.KeptIsNotRebuilt | iaxclient/lib/libspeex/quant_lsp.c:152-295 | a first frequency of 25000 with zero codewords, where both forms differ |
| QuantLsp.EncodeThenDecode | iaxclient/lib/libspeex/quant_lsp.c:152-232 | the two functions in turn agree at exactly those coordinates; whatever the codebooks, they agree near the start of the quantiser and differ far from it |
| QuantLsp.EncodeThenDecodeLbr | iaxclient/lib/libspeex/quant_lsp.c:235-295 | the same for three stages |
| Autocorr.CorrAboveEnergy | iaxclient/lib/libspeex/lpc.c:152-163 | the correlation at any lag but 0 stays above minus the energy by a 2 m^2-th part of it |
| Autocorr.AccFits | iaxclient/lib/libspeex/lpc.c:152-161 | for up to 511 samples of 16 bits every partial accumulator fits 32 bits, at every lag |
| Autocorr.StoredFits | iaxclient/lib/libspeex/lpc.c:138-163 | every stored value has 14 bits, and the one at lag 0 is not negative |
| Autocorr.ChooseShifts | iaxclient/lib/libspeex/lpc.c:138-149 | the two scaling loops |
| Autocorr.Autocorr | iaxclient/lib/libspeex/lpc.c:125-164 | the whole function: the shifted sums, stored without overflow |
| Autocorr.Reflect | iaxclient/lib/libspeex/lpc.c:96-107 | the pairwise in-place update corrects every coefficient by its mirror image as if all at once |
| Autocorr.Mac13IsFloor | iaxclient/lib/libspeex/lpc.c:96-107 | each correction is the exact value in 1/8192, rounded down, where it fits |
| MedianFilters.ArrangedWithout | iaxclient/lib/libspeex/medfilter.c:60-80 | taking out the oldest value keeps the values sorted and their ages right |
| MedianFilters.MedianFilter.Update | iaxclient/lib/libspeex/medfilter.c:48-91 | after any updates: the last min(N, count) inputs, sorted, each with its age rank |
| MedianFilters.SortedUnique | iaxclient/lib/libspeex/medfilter.c:48-91 | there is one way to sort a window |
| MedianFilters.MedianFilter.Get | iaxclient/lib/libspeex/medfilter.c:93-96 | the upper median of the window |
| Jitter.CountedIsHistogram | iaxclient/lib/libspeex/jitter.c:152-172 | counting an arrival keeps bins non-negative and the total at most 1 |
| Jitter.BinWindow | iaxclient/lib/libspeex/jitter.c:157-171 | the window of margins each bin counts, in frames from four late on |
| Jitter.Shares | iaxclient/lib/libspeex/jitter.c:191-203 | what is late and what is early, bin by bin |
| Jitter.ShiftUpLoses | iaxclient/lib/libspeex/jitter.c:208-220 | the late branch loses what was in the top bin, and keeps the total exactly when that was nothing |
| Jitter.TopBinLost | iaxclient/lib/libspeex/jitter.c:80-226 | a run in which it does: one packet far ahead, six late ones, and a call of get |
| Jitter.ShiftDownKeeps | iaxclient/lib/libspeex/jitter.c:231-244 | the drop branch keeps the total exactly |
| Jitter.JitterBuffer.Put | iaxclient/lib/libspeex/jitter.c:80-176 | where a packet is stored: the first empty slot after cleaning, or the first of the earliest; what is cleaned, counted and reset |
| Jitter.JitterBuffer.Get | iaxclient/lib/libspeex/jitter.c:178-310 | what is played and from which slot, and when a frame is held or dropped, by the sums of the bins; decoded timestamps equal the pointer and increase strictly between resets; no put is taken twice |
| Jitter.TracedTaken | iaxclient/lib/libspeex/jitter.c:291-303 | a packet taken leaves its slot, so that it is in one place only |
| Calls.TableTaken | iaxclient/lib/iaxclient_lib.c:1007-1066 | a call without a session gets one not in use: active exactly with a session, no session twice |
| Calls.TableSelected | iaxclient/lib/iaxclient_lib.c:326-366 | only the selected call can carry the mark |
| Calls.Client.SelectCall | iaxclient/lib/iaxclient_lib.c:326-366 | the selection moved, the old call unmarked, an incoming ringing call answered; with no call selected nothing is reported, and the last report of the old call stays right exactly when it was not marked |
| Calls.DeselectedUnreported | iaxclient/lib/iaxclient_lib.c:337-343 | taking the mark off changes a call's state exactly when it was marked |
| Calls.SelectThenNone | iaxclient/lib/iaxclient_lib.c:326-366 | of two new calls one is selected, then none: the last report says that it is selected, and it is not |
| Calls.Client.PlaceCall | iaxclient/lib/iaxclient_lib.c:1007-1066 | the call used has no session before; every other session stays |
| Calls.Client.AnswerCall | iaxclient/lib/iaxclient_lib.c:1078-1088 | complete and no longer ringing, every other bit, session and format as before |
| Calls.Client.ClearCall | iaxclient/lib/iaxclient_lib.c:315-322 | a call given up is free and without a session |
| Calls.Client.DumpAll | iaxclient/lib/iaxclient_lib.c:1107-1114 | all calls are free |
| Calls.Client.RejectCall | iaxclient/lib/iaxclient_lib.c:1132-1140 | the call is free |
| Calls.Client.HandleEvent | iaxclient/lib/iaxclient_lib.c:864-947 | what each network event makes of a call, bit by bit; a changed call is reported; all other calls unchanged |
| Calls.EventHappens | iaxclient/lib/iaxclient_lib.c:864-947 | each event sets and clears its own bits and no others |
| Calls.FirstCall | iaxclient/lib/iaxclient_lib.c:864-1066 | a first call placed, ringing and answered has the states 6, 14 and 22 |
| Calls.Client.ServiceEvent | iaxclient/lib/iaxclient_lib.c:1226-1343 | an event for a call, a reply to the one registration of the session, with what it makes of the registrations, or a new call in the first free appearance, never over a live session |
| Calls.Client.Register | iaxclient/lib/iaxclient_lib.c:958-993 | a registration holds a session not in use |
| Calls.Client.HandleReply | iaxclient/lib/iaxclient_lib.c:1189-1204 | the session of a registration is given up; a rejected one is removed |
| Events.EachOnce | iaxclient/lib/iaxclient_lib.c:113-130 | in every run of locks, unlocks, posts and deliveries every event posted is delivered or waiting exactly once |
| Events.AllDelivered | iaxclient/lib/iaxclient_lib.c:113-130 | when nothing waits, what was delivered is what was posted |
| Events.DeliveredInOrder | iaxclient/lib/iaxclient_lib.c:113-213 | when nobody locks during a delivery, events posted under the lock are delivered in posting order |
| Events.LockedWhileDelivering | iaxclient/lib/iaxclient_lib.c:113-213 | a run in which somebody does, and the order changes |
| Events.CanReorder | iaxclient/lib/iaxclient_lib.c:113-213 | from every reachable state in which the lock is held while an event waits, a continuation without another lock changes the order |
| Events.CalmExactly | iaxclient/lib/iaxclient_lib.c:113-213 | that nobody locks during a delivery is the exact condition: a run is of that kind exactly when, wherever it is broken off, every continuation that does not lock delivers in order |
| Events.EventQueue.GetLock | iaxclient/lib/iaxclient_lib.c:106-110 | the lock is held |
| Events.EventQueue.PostEvent | iaxclient/lib/iaxclient_lib.c:177-200 | queued while the lock is held, delivered at once otherwise |
| Events.EventQueue.PutLock | iaxclient/lib/iaxclient_lib.c:113-130 | one thread alone: everything queued is delivered in order and nothing stays behind |

## Left out

- Getopt.Scanner.Next: long options, the "W;" extension and the printed messages are not modelled; in the orderings
  other than PERMUTE the contract covers single calls, and the reports of a whole run are not summed up.
- Getopt.Scanner.ShortOption: the same; option strings with "W;" are excluded.
- Getopt.Scanner.ScanAll: the same, and only option strings that select the order PERMUTE.
- OpenLoop.OpenLoopNBestPitch: the length is a multiple of 4, as the unrolled correlation loops need; the open-loop
  gains, which take square roots, are not modelled.
- Ltp.PitchSearch: the same multiple of 4; the filters and the signal are given, and the packing of the two indices is
  that of `FrameFields.PutLtp`.
- LtpFixed.Search: the gain index and the responses of each pitch are given; the normalised gain search that the
  fixed-point build derives them with is not modelled, and the result holds for whatever it chooses.
- LtpFixed.TryPitch: the same.
- LtpFixed.Unquant: without lost frames; the damping after a loss is modelled in `Ltp` only.
- Ltp.PitchUnquant: the indices are arguments; their fields are those of `FrameFields.PutLtp`.
- CbResults.SplitCbSearch: exact arithmetic only; the fixed-point branch of the N = 1 shortcut ignores signs
  (`iaxclient/lib/libspeex/cb_search.c:180`) and is not modelled.
- CbResults.SplitCbUnquant: the signs and indices are arguments; `Frames` models reading the fields.
- CbResults.BeamIsBestOfAll: of each signed row only the better sign is meant, as the quantiser considers no other.
- Lsp.LspToLpc: takes the cosines of the frequencies; `spx_cos`, `lpc_to_lsp` with `cheb_poly_eva`, and the
  fixed-point form are not modelled.
- Frames.NbDecode: in-band requests (modes 13 and 14) end the parse, since their handlers are outside code; the
  signal values are abstract; the 4.8 kbps mode, voice activity and variable bit rate are not modelled.
- CodecSpeex.EncodePacket: the bit buffer must hold the packet; frame contents stand for the samples.
- CodecSpeex.DecodePacket: for an empty packet it is only said that the frame is made up, not what it holds.
- Bits.SpeexBits.ReadWholeBytes: a buffer not owned that is too small, and a full one that cannot grow; there the
  source copies a number of bytes that has nothing to do with what it was given, or a negative one.
- QuantLsp.LspQuantNb: the weights are an argument, as `compute_quant_weights` may divide by zero on unordered input;
  codebooks are rows of signed bytes; the ids are packed by `Frames`; the wideband quantisers are not modelled.
- QuantLsp.LspQuantLbr: the same.
- QuantLsp.LspUnquantNb: the ids are arguments; `Frames` models reading them.
- QuantLsp.LspUnquantLbr: the same.
- Autocorr.Autocorr: up to 511 samples, for which the accumulators fit 32 bits; no window of the codec is longer.
- Autocorr.Reflect: the update loop only; the rest of `_spx_lpc` divides by a regularised error and has no exact
  specification.
- MedianFilters.MedianFilter.Update: values are real numbers, so not-a-number is not modelled.
- Jitter.JitterBuffer.Get: decoding is a parameter, and the samples and the loss rate are left out.
- Calls.Client.ServiceEvent: the names and numbers of a call, the choice of codec and the audio of voice events are
  left out; the codec agreed on is an argument.
- Calls.Client.PlaceCall: the session comes from the network layer, which gives one that is not in use.
- Events.EachOnce: events of type 0, which are replaced by an error message, are not modelled.
- Drivers for audio and video, sockets, configuration, and the Tcl bindings: devices and foreign calls.
- The wideband codec, packet-loss concealment, echo cancellation and comb filtering: no exact specification.
