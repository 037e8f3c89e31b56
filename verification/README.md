# Models of the calibration software and gateware

A Dafny 4.11 model of the self-contained logic in this instrument-calibration repository, with proofs of the
properties it relies on. `dafny verify dfyconfig.toml` checks everything. Code that changes things step by step is
modelled by methods with loops and by classes; every such method is proved equal to, or inside, a specification
function or relation, and the lemmas are about those.

## What is modelled

**The command-line parser** (`sw/ab_cal_scripts/lib/docopt.py`). `DocoptPattern` has pattern trees and the language of
a pattern. `DocoptTransform` is the work list of `transform`, proved to yield the multiset of cases that distributing
by recursion yields, and to terminate although it copies groups; `DocoptCases` says which cases are words.
`DocoptMatch` is the greedy matcher with its loops, `DocoptSound` proves every match a run of a word that loses,
invents and reorders nothing, `DocoptComplete` says when a match is found if there is one, and `DocoptAccepts` when
docopt, which also wants nothing to be left, accepts what a usage describes. `DocoptGrammar` and `DocoptParser` are
the recursive-descent parser, as functions and on the shared, mutable lists of tokens and options; `DocoptOptions`
says what an option token means in terms of its characters, `DocoptScan` that the parser finds what one pass with a
stack of brackets finds, and `DocoptPrint`, `DocoptParsed` and `DocoptNewOptions` prove the round trips of printing and
parsing, both ways round. `DocoptFix` is `fix` on a heap of leaf and branch objects, where identity of objects is the
point; `DocoptSplit` has the words it splits default values into.

**The Ethernet CRC-32** (`hdl/general_packages/EMAC16bit_package.vhd`). `Gf2` has polynomials over GF(2), `Lfsr` the
shift register over any polynomial and any number of bits, `Crc32` the functions of the package over messages of any
number of words, `CrcValues` and `CrcCheck` the register values its comments list and the residue. The checksum is
that of clause 3.2.9 of IEEE 802.3-2008.

**Clocked machines.** `FirePacketGen`, `Debounce` (also RepeatFire, and the reset stretcher of
`hdl/general_modules/metastabilizer.vhd`) and their composition `FirePackets` from
`hdl/clb_abs_calibration/top/fpga.vhd`; `TransmitFrame` from `hdl/general_modules/stimuli/TransmitFrame16bit.vhd`. One
method call is one rising edge, and the theorems are about all histories of the inputs.

**Delay determination** (`sw/ab_cal_scripts/delay_determination.py`, `sw/ab_cal_scripts/lib/pat_gen.py`).
`CircularCorrelation`, `LinearCorrelation`, `Peaks` and `PatternGenerator`, over exact real samples, with Python 2's
rounding division, negative slice bounds and numpy's broadcasting.

**PTP messages and timestamps** (`sw/embedded/precompiled/wrpc-clb-cal-sw/`). `PtpMessages` is the codec with its one
transmit buffer and `PtpWire` its bytes (clauses 13.3 and 13.5 to 13.8 of IEEE 1588-2008), `Timestamps` the carries
and borrows of the receive path. `Bytes`, `Vhdl`, `Bags`, `Squares`, `Division`, `MinMax` and `Wrappers` are shared vocabulary.

## Where the code is not what its documentation says

- `correlate_circular`: the axis is right for every pair of signals if and only if the first is at least as long as the
  second and its length is even, or one. For odd lengths every entry is one lag away from its label
  (`CircularCorrelation.AlignedIff`).
- `correlate_linear`: negative windows, which come from signals too short for center and shift or from a negative
  length, are accepted. What a pass then sums is samples at its delay if and only if both cuts have one number of
  samples and the cut of signal2 that starts last still ends inside it (`LinearCorrelation.AlignedIff`): some negative
  windows sum nothing, some are right, and some wrap (`LinearCorrelation.NegativeWindows`). AMDF takes no magnitudes,
  so it only compares totals (`LinearCorrelation.AmdfIsDifferenceOfTotals`). The zero-padded axis starts one later than
  that of the circular correlation (`LinearCorrelation.PaddedKeeps`).
- `scipy_array_from_pattern`: an odd number of samples loses the last one (`PatternGenerator.BitTime`), and with one
  sample per bit that is a whole bit (`PatternGenerator.LastBitLost`).
- Announce and Follow_Up go out with the correction field that an earlier Delay_Resp left (`PtpMessages.StaleCorrection`),
  and the domain of the last Delay_Resp stays in the buffer (`PtpMessages.HeaderUnpacks`).
- RepeatFire repeats every 2423 edges; the comment in `fpga.vhd` computes 2422 (`Debounce.FirePeriod`).
- docopt's matcher is greedy: `[<a>] <b>` does not match one argument (`DocoptSound.GreedyMisses`). A match of `[a] b`
  is missed on some arguments if and only if the two leaves compete for an element (`DocoptComplete.OptionalThenIff`).
  A match can also be found and leave something although another word would have left nothing, which docopt rejects:
  `[-a] [(-a -b)]` on `-a -b` (`DocoptAccepts.GroupMisses`). For `[a] [(b c)]` that happens if and only if a can take
  what the group needs (`DocoptAccepts.OptionalGroupIff`), and never for usages whose choices are apart from what
  follows them or whose optional leaves are optional one by one (`DocoptAccepts.AcceptsIff`), as in this repository.
- A token that is part of `([` without being a bracket is a KeyError, here `NoSuchBracket`.
- `fix` is meant to leave equal leaves as one object. It does if and only if no two leaves of one name with different
  values collide when the repeated ones accumulate, which is a condition on the tree before (`DocoptFix.Fix`). A parsed
  usage never collides (`DocoptParsed.ParsedKeysDecide`); the options that docopt fills into `[options]` can: in
  `prog [options] [options]`, an option listed once without a default and once with an empty one
  (`DocoptFix.FixOptionsTwice`).

## Model

| member | source | states |
|---|---|---|
| DocoptTransform.Transform | sw/ab_cal_scripts/lib/docopt.py:72-96 | for every tree, the cases of the work list are, as a multiset of leaf multisets, those of the recursive expansion: one alternative per Either, bodies of Required and Optional inlined, bodies of OneOrMore twice with independent choices |
| DocoptTransform.Drain | sw/ab_cal_scripts/lib/docopt.py:81-95 | the while loop, from any groups that still expand to the cases of the pattern, ends with only leaf groups that are those cases |
| DocoptTransform.TurnKeeps | sw/ab_cal_scripts/lib/docopt.py:82-93 | replacing the first branch of a group keeps the expansion of all groups together and lowers the measure by which the loop terminates |
| DocoptTransform.LessWork | sw/ab_cal_scripts/lib/docopt.py:87-93 | why it terminates although OneOrMore doubles and Either multiplies: the replacements of a branch weigh less together than the branch did |
| DocoptTransform.StepKeeps | sw/ab_cal_scripts/lib/docopt.py:85-93 | taking out a branch at any position and putting its replacements in front changes no case |
| DocoptTransform.ExpandMove | sw/ab_cal_scripts/lib/docopt.py:85-86 | moving a child to the front of its group permutes the cases only |
| DocoptCases.CasesAreWords | sw/ab_cal_scripts/lib/docopt.py:73-76 | every case is the multiset of a word of the pattern; for trees of Required and Either the cases are exactly the multisets of words |
| DocoptCases.WordOfCase | sw/ab_cal_scripts/lib/docopt.py:72-96 | gives, for any tree and case, a word with those leaves |
| DocoptCases.CasesExactly | sw/ab_cal_scripts/lib/docopt.py:72-96 | for every tree, the cases are exactly the words, their order forgotten, that leave nothing optional out and repeat what repeats once |
| DocoptCases.RepeatedAsInWords | sw/ab_cal_scripts/lib/docopt.py:57-69 | some case has a leaf twice if and only if some word does, so fix accumulates exactly what a command line can give more than once |
| DocoptCases.MatchIsCase | sw/ab_cal_scripts/lib/docopt.py:57-62 | for trees of Required and Either, every match collects for the leaves of one of transform's cases |
| DocoptMatch.MatchPattern | sw/ab_cal_scripts/lib/docopt.py:112-130 | match on any pattern without accumulating leaves, loops and all, is the function Match |
| DocoptMatch.MatchRequired | sw/ab_cal_scripts/lib/docopt.py:219-229 | all children in turn on what the last one left; the inputs when one fails |
| DocoptMatch.MatchOptional | sw/ab_cal_scripts/lib/docopt.py:232-238 | every child in turn, whether it matches or not |
| DocoptMatch.MatchOneOrMore | sw/ab_cal_scripts/lib/docopt.py:246-265 | the loop until its child fails or takes nothing, terminating because what is left shrinks |
| DocoptMatch.MatchEither | sw/ab_cal_scripts/lib/docopt.py:268-279 | the outcome of an alternative that matches and leaves no more than any other that matches, and less than any before it; the inputs when none matches |
| DocoptMatch.EitherMeans | sw/ab_cal_scripts/lib/docopt.py:268-279 | the same of the function Match |
| DocoptSound.Soundness | sw/ab_cal_scripts/lib/docopt.py:112-279 | a match collects one fitting leaf for each leaf of some word of the pattern, conserves the number of elements and the elements themselves, leaves a subsequence and keeps positional arguments in order; a failure returns its inputs |
| DocoptSound.MatchRuns | sw/ab_cal_scripts/lib/docopt.py:112-279 | every match, of any pattern, has exactly the outcome of running one word of the language leaf by leaf |
| DocoptSound.FailureRestores | sw/ab_cal_scripts/lib/docopt.py:228-279 | a failed match changes neither list |
| DocoptSound.OneOrMoreExhausts | sw/ab_cal_scripts/lib/docopt.py:256-262 | where OneOrMore stops, its child fails or takes nothing |
| DocoptSound.LoopFixedPoint | sw/ab_cal_scripts/lib/docopt.py:256-265 | the loop stops at a fixed point of its child, and fails only if the child does |
| DocoptSound.RunKeepsTokens | sw/ab_cal_scripts/lib/docopt.py:117-130 | what is collected and what is left are together the arguments given |
| DocoptSound.RunInOrder | sw/ab_cal_scripts/lib/docopt.py:152-177 | the values of positional arguments are collected in the order of the command line |
| DocoptSound.GreedyMisses | sw/ab_cal_scripts/lib/docopt.py:236-237 | an optional before a required argument takes the only one, and the match is missed |
| DocoptComplete.MatchesIff | sw/ab_cal_scripts/lib/docopt.py:112-279 | a pattern matches if and only if one of its words runs on the arguments, when each choice in it is last in its sequence, or followed only by patterns that cannot fail, or, on a vector of options and positional elements, takes only options that nothing after it looks for |
| DocoptComplete.OptionalThenIff | sw/ab_cal_scripts/lib/docopt.py:219-238 | `[a] b` finds every match there is, on all argument vectors, if and only if a and b do not compete: options of one name, or positional leaves other than two different commands |
| DocoptComplete.UsagesCommitted | sw/ab_cal_scripts/lib/docopt.py:219-244 | usages like `<IP#> [-c<x>] [-a<y>]` and, as it is parsed, `[options] <file>` meet the condition |
| DocoptComplete.RestRuns | sw/ab_cal_scripts/lib/docopt.py:180-208 | what later patterns can match does not depend on which options with other names were taken before |
| DocoptComplete.RunSeen | sw/ab_cal_scripts/lib/docopt.py:150-208 | whether a word runs depends only on the positional elements and those of its own names |
| DocoptComplete.NormalisedLeavesLeast | sw/ab_cal_scripts/lib/docopt.py:268-279 | on alternatives without inner choices, a match is found whenever there is one and leaves no more than any word that runs |
| DocoptComplete.ChoiceFreeExact | sw/ab_cal_scripts/lib/docopt.py:219-229 | without choices, matching is exactly running the one word, success and outcome |
| DocoptComplete.LeafTakes | sw/ab_cal_scripts/lib/docopt.py:150-208 | exactly which element each kind of leaf takes, and what it collects for it |
| DocoptComplete.OptionTakes | sw/ab_cal_scripts/lib/docopt.py:180-208 | options are matched by their long names, and by the short ones when they have no long ones |
| DocoptAccepts.AcceptsIff | sw/ab_cal_scripts/lib/docopt.py:578-579 | docopt accepts a vector if and only if some word of the pattern uses all of it, when each choice in the pattern is last in its sequence, or in options that nothing after it looks for, or among leaves that are all optional one by one |
| DocoptAccepts.LeavesLeast | sw/ab_cal_scripts/lib/docopt.py:112-279 | the match of such a pattern leaves no more than any word that runs |
| DocoptAccepts.GreedyTakesMost | sw/ab_cal_scripts/lib/docopt.py:232-238 | leaves that take in turn whatever they can take no less than any subsequence of them that runs, competing or not |
| DocoptAccepts.TurnsTakeMost | sw/ab_cal_scripts/lib/docopt.py:246-265 | repeating a pattern without choices until nothing more is taken takes no less than any number of turns that runs |
| DocoptAccepts.UsagesThorough | sw/ab_cal_scripts/edge_sfd.py:23-27 | a required leaf with any optional leaves behind it meets the condition for all arguments, `[options] <file>` for argument vectors |
| DocoptAccepts.AlternativesThorough | sw/ab_cal_scripts/lib/docopt.py:470-473 | and so does a usage of several lines that do |
| DocoptAccepts.OptionalThenAccepts | sw/ab_cal_scripts/lib/docopt.py:578-579 | for `[a] b`, docopt accepts all that is described if and only if a and b do not compete |
| DocoptAccepts.OptionalGroupIff | sw/ab_cal_scripts/lib/docopt.py:578-579 | for `[a] [(b c)]`, if and only if a competes neither with b nor, when a or b is an option, with c |
| DocoptAccepts.GroupMisses | sw/ab_cal_scripts/lib/docopt.py:578-579 | `[-a] [(-a -b)]` describes `-a -b`, and docopt rejects it |
| DocoptGrammar.ParseAtom | sw/ab_cal_scripts/lib/docopt.py:402-425 | an atom takes at least one token, which is what makes the mutual recursion terminate |
| DocoptParser.ParsePatternTokens | sw/ab_cal_scripts/lib/docopt.py:369-374 | the parser on the shared lists is the grammar: same tree, same known options and every token taken, or the same error |
| DocoptParser.ParseExprTokens | sw/ab_cal_scripts/lib/docopt.py:377-387 | alternatives, with sequences of two or more grouped |
| DocoptParser.ParseSeqTokens | sw/ab_cal_scripts/lib/docopt.py:390-399 | atoms up to a closing bracket, a bar or the end, with "..." after any of them |
| DocoptParser.ParseAtomTokens | sw/ab_cal_scripts/lib/docopt.py:402-425 | one atom taken off the list, or the error for a bracket that does not match |
| DocoptParser.ParseLongToken | sw/ab_cal_scripts/lib/docopt.py:301-331 | a long option of a usage pattern: a new one is added to the known ones, a known one keeps its argument count, and each error is the source's |
| DocoptParser.ParseShortsToken | sw/ab_cal_scripts/lib/docopt.py:334-366 | stacked short options, letter by letter, the last one taking the rest or the next token as its argument |
| DocoptOptions.LongMeans | sw/ab_cal_scripts/lib/docopt.py:301-331 | for every `--name` and `--name=value` and any known options: when it is which error, which leaf it becomes, what becomes known, and whether the next token is its argument |
| DocoptOptions.ShortsMean | sw/ab_cal_scripts/lib/docopt.py:334-366 | stacked short options give one leaf per letter, in order, up to and with the first that takes an argument; when it is which error; the next token is taken exactly when that letter is the last |
| DocoptOptions.ShortsLearn | sw/ab_cal_scripts/lib/docopt.py:340-353 | what becomes known is one flag for each letter that was unknown where it first occurs, in order |
| DocoptScan.ParseIsScan | sw/ab_cal_scripts/lib/docopt.py:369-425 | for all tokens, the parser fails as one pass with a stack of open brackets does, and otherwise its tree has the leaves of that pass, from left to right, and the same options are known |
| DocoptScan.DashKinds | sw/ab_cal_scripts/lib/docopt.py:418-421 | which tokens are long and stacked short options |
| DocoptScan.ArgumentKind | sw/ab_cal_scripts/lib/docopt.py:422-425 | of the others, arguments are those in angle brackets, and those with a capital and no small letter |
| DocoptPrint.RoundTrip | sw/ab_cal_scripts/lib/docopt.py:369-425 | printing any tree in normal form to strings and running the parser gives the same tree, takes every token and leaves the known options alone |
| DocoptNewOptions.RoundTripFromPart | sw/ab_cal_scripts/lib/docopt.py:301-425 | the same when only some of the options are known and the parser meets the others first in the text; what it knows in the end is again part of all |
| DocoptNewOptions.RoundTripFromNothing | sw/ab_cal_scripts/lib/docopt.py:301-425 | a tree whose options have one name each, and arguments behind long names only, comes back from its text alone |
| DocoptParsed.ParsedIsNormal | sw/ab_cal_scripts/lib/docopt.py:301-425 | a parsed tree is in normal form for the options known in the end, but for stacked short options under "...", "..." as a command and "--" as a short option; so printing and parsing it again gives it back |
| DocoptParsed.ParsedKeysDecide | sw/ab_cal_scripts/lib/docopt.py:301-425 | in a parsed tree, leaves of one class and name hold one value, so none collide in fix |
| DocoptPrint.ExprRoundTrip | sw/ab_cal_scripts/lib/docopt.py:377-387 | the same inside brackets, in front of any closing token |
| DocoptPrint.AtomRoundTrip | sw/ab_cal_scripts/lib/docopt.py:402-425 | the same for one atom in front of any tokens |
| DocoptFix.Fix | sw/ab_cal_scripts/lib/docopt.py:40-43 | after fix, two leaves are one object if and only if they were equal, the tree has its old shape, exactly the leaves whose content occurs twice in some case hold an accumulating value, and leaves equal now are one object if and only if no two leaves of the old tree collide |
| DocoptFix.CollideIff | sw/ab_cal_scripts/lib/docopt.py:61-68 | two leaves collide, by their values and whether each is repeated, exactly when they differ before and agree after |
| DocoptFix.CollideFromText | sw/ab_cal_scripts/lib/docopt.py:61-68 | for leaves as text gives them, that is when both are repeated and their defaults split into the same words |
| DocoptFix.RepeatsByContent | sw/ab_cal_scripts/lib/docopt.py:57-61 | when equal leaves are one object, an object is repeated in some case of the tree exactly when its content is in the tree of contents |
| DocoptFix.FixOptionsTwice | sw/ab_cal_scripts/lib/docopt.py:571-578 | fix on the tree of `prog [options] [options]` with an option listed without and with an empty default leaves equal leaves apart |
| DocoptParsed.OptionsTwiceParsed | sw/ab_cal_scripts/lib/docopt.py:402-425 | that tree is what the parser makes of the usage, with the listed options put under both shortcuts |
| DocoptFix.Unite | sw/ab_cal_scripts/lib/docopt.py:45-55 | fix_identities alone: equal leaves become one object, unequal ones do not, and no content changes |
| DocoptFix.BranchObject.FixIdentities | sw/ab_cal_scripts/lib/docopt.py:45-55 | in place, every leaf below is replaced by the first equal one of the list and nothing else changes |
| DocoptFix.FixRepeatingArguments | sw/ab_cal_scripts/lib/docopt.py:57-69 | on united leaves, a leaf accumulates if and only if some case repeats it |
| DocoptFix.FixCase | sw/ab_cal_scripts/lib/docopt.py:60-68 | one case: counting by equality finds the repeated objects, also when other leaves have changed already |
| DocoptFix.Accumulating | sw/ab_cal_scripts/lib/docopt.py:62-68 | zero for commands and flags; else the list it was, the words of its string, or no words for None |
| DocoptFix.WithValueKeeps | sw/ab_cal_scripts/lib/docopt.py:62-68 | assigning a value changes nothing else of a leaf |
| DocoptSplit.SplitMeans | sw/ab_cal_scripts/lib/docopt.py:65-66 | the words are maximal stretches without white space, in order, and nothing else is left out |
| DocoptFix.OnlyLooksRepeated | sw/ab_cal_scripts/lib/docopt.py:61-68 | a leaf that becomes equal to another one by accumulating is not changed a second time |
| DocoptFix.StaysUnited | sw/ab_cal_scripts/lib/docopt.py:40-43 | if leaves of one class and name hold one value, none collide |
| DocoptFix.KeysMatter | sw/ab_cal_scripts/lib/docopt.py:61-66 | the two defaults of that usage collide: both become an empty list |
| Crc32.CRC32 | hdl/general_packages/EMAC16bit_package.vhd:196-233 | the bit loop advances the register by the sixteen bits of the word, least significant first |
| Crc32.ShiftInWord | hdl/general_packages/EMAC16bit_package.vhd:224-232 | the same for any polynomial with a constant term |
| Crc32.NegateReverse | hdl/general_packages/EMAC16bit_package.vhd:235-242 | feeding the result to CRC32 feeds the complement of the register bits, highest first |
| Crc32.CrcOfMessage | hdl/general_packages/EMAC16bit_package.vhd:196-233 | CRC32 over a message of any number of words |
| Crc32.CrcIsRemainder | hdl/general_packages/EMAC16bit_package.vhd:197-200 | that register is the one remainder of init and message, shifted up by 32, after polynomial division |
| Crc32.AppendFcs | hdl/general_packages/EMAC16bit_package.vhd:202-206 | appending two words that feed the complement of the register, its high half first, leaves 0xC704DD7B, whatever the message and the start; NegateReverse of the two halves gives them |
| Crc32.ResidueAfter | hdl/general_packages/EMAC16bit_package.vhd:202-206 | the same for any two words that feed that complement |
| Crc32.BurstDetected | hdl/general_packages/EMAC16bit_package.vhd:218-233 | messages that differ, but only within 32 consecutive bits, leave different registers |
| Crc32.StreamInjective | hdl/general_packages/EMAC16bit_package.vhd:225-226 | different messages of one length are different bit streams |
| Lfsr.FoldIsRemainder | hdl/general_packages/EMAC16bit_package.vhd:225-231 | for every polynomial, start and message, quotient and remainder of the division are unique and are what the loop computes |
| Lfsr.FoldLinear | hdl/general_packages/EMAC16bit_package.vhd:225-231 | the register of a sum is the sum of the registers |
| Lfsr.FoldInjective | hdl/general_packages/EMAC16bit_package.vhd:225-231 | shifting in a message is a bijection of the register |
| Lfsr.BurstDetected | hdl/general_packages/EMAC16bit_package.vhd:218-231 | a burst no longer than the register is always detected, between any bits |
| Lfsr.Residue | hdl/general_packages/EMAC16bit_package.vhd:202-206 | after its own complement the register no longer depends on the message |
| CrcValues.CheckTable | hdl/general_packages/EMAC16bit_package.vhd:202-206 | the four register values of the comment, from 0xFFFFFFFF |
| CrcCheck.CheckWords | hdl/general_packages/EMAC16bit_package.vhd:202-206 | the same four bytes as two words: bit 0 of a word, and its low byte, come first |
| CrcValues.ResidueValue | hdl/general_modules/stimuli/TransmitFrame16bit.vhd:416-420 | the residue is 0xC704DD7B, the complement of the transmitter's g_residue |
| CrcValues.FoldBvIsFold | hdl/general_packages/EMAC16bit_package.vhd:225-231 | 32-bit words compute the same register |
| FirePacketGen.Generator.Edge | hdl/clb_abs_calibration/top/fpga.vhd:361-435 | the registers and outputs after one rising edge, for every state and input |
| FirePacketGen.BurstReturns | hdl/clb_abs_calibration/top/fpga.vhd:384-434 | from Tx_Fire, under any history of Full, exactly numpackets copies of the frame are written, and the return to Idle is the edge without Full number numwords * numpackets + 1 |
| FirePacketGen.EveryWord | hdl/clb_abs_calibration/top/fpga.vhd:384-434 | word k of all that is ever written has EOD if and only if numwords divides k + 1; it is then 0x0E0D, 0x050D at the start of a frame, and its number in the frame elsewhere |
| FirePacketGen.BurstWord | hdl/clb_abs_calibration/top/fpga.vhd:384-434 | the same of one burst, from any idle state |
| FirePacketGen.IdleShows | hdl/clb_abs_calibration/top/fpga.vhd:365-383 | between bursts the bus shows 0xAA11 without EOD and nothing is written |
| FirePacketGen.FiredBurst | hdl/clb_abs_calibration/top/fpga.vhd:384-434 | until then the generator is busy and has written one word per edge without Full, a prefix of those copies |
| FirePacketGen.WholeFrames | hdl/clb_abs_calibration/top/fpga.vhd:361-435 | after any history whatever, exactly numpackets whole frames have been written for every fire accepted, less those the current burst has still to send, and the part of its current frame that the counter shows |
| FirePacketGen.RangesKept | hdl/clb_abs_calibration/top/fpga.vhd:362-363 | the variables keep inside their declared ranges |
| Debounce.Stretcher.Edge | hdl/clb_abs_calibration/top/fpga.vhd:173-214 | the registers after one edge |
| Debounce.Registers | hdl/general_modules/metastabilizer.vhd:45-75 | the synchronisers hold the last two samples; the counter is the length of the active run that ended one edge earlier, up to the tested bit, and never passes it |
| Debounce.TcIff | hdl/clb_abs_calibration/top/fpga.vhd:184-203 | tc is high if and only if the T + 1 samples that end one edge earlier were all active, T being the weight of the tested bit |
| Debounce.PulseIsRise | hdl/clb_abs_calibration/top/fpga.vhd:207-217 | Pulse is high exactly where tc has just risen, never on two edges in a row |
| Debounce.RepeatFire.Edge | hdl/clb_abs_calibration/top/fpga.vhd:123-138 | counter and Fire after one edge |
| Debounce.FirePeriod | hdl/clb_abs_calibration/top/fpga.vhd:123-138 | Fire shows Enable on every edge whose number is a multiple of div_ratio + 1, and is low on all others |
| FirePackets.Entity.Edge | hdl/clb_abs_calibration/top/fpga.vhd:522-565 | the parts sample each other's registers from before the edge |
| FirePackets.PulseIff | hdl/clb_abs_calibration/top/fpga.vhd:522-554 | a burst is asked for, in terms of the raw inputs, if and only if the button has been steady for one edge exactly, or 2423 divides the number of edges and the switch was steady |
| FirePackets.OnlyWholeFrames | hdl/clb_abs_calibration/top/fpga.vhd:515-566 | however the button bounces or fires into a burst, the network is given sixteen frames of nine words for every pulse that finds the generator idle, less what the current burst has still to send |
| FirePackets.Parts | hdl/clb_abs_calibration/top/fpga.vhd:522-565 | each part of the composition runs on its own history |
| TransmitFrame.Transmitter.Edge | hdl/general_modules/stimuli/TransmitFrame16bit.vhd:435-570 | the registers after one rising edge, for every state and input |
| TransmitFrame.FireSendsAll | hdl/general_modules/stimuli/TransmitFrame16bit.vhd:452-566 | every Rx_Fire in the idle state sends for each frame four preamble words, its words (a single zero before the frames are set), two checksum words, the end delimiter and six idle words; the checksum generator takes exactly the frame words, and the start delimiter where Rx_CRC_Err is high; the entity ends loaded and idle |
| TransmitFrame.BodyPhase | hdl/general_modules/stimuli/TransmitFrame16bit.vhd:474-566 | the same for one frame of any length |
| TransmitFrame.GapPhase | hdl/general_modules/stimuli/TransmitFrame16bit.vhd:531-565 | the gap is six idle words, 96 bits |
| TransmitFrame.IdleLoads | hdl/general_modules/stimuli/TransmitFrame16bit.vhd:463-472 | one idle edge loads the frames, from any state that is idle |
| CircularCorrelation.Aligned | sw/ab_cal_scripts/delay_determination.py:503-512 | entry i is the circular cross-correlation, the second signal zero-padded, at lag axis[i], plus one when the length is odd |
| CircularCorrelation.AlignedEven | sw/ab_cal_scripts/delay_determination.py:503-512 | for even lengths, at exactly the lag on the axis, which runs from -n/2 to n/2 - 1 |
| CircularCorrelation.AlignedIff | sw/ab_cal_scripts/delay_determination.py:481-512 | for every pair of lengths, the axis is right for all signals if and only if the first is at least as long and its length is even, or one |
| CircularCorrelation.FoldAt | sw/ab_cal_scripts/delay_determination.py:503-509 | for signals of any lengths, what the fold adds up: two linear correlations, and at which lags |
| CircularCorrelation.FoldIsCircular | sw/ab_cal_scripts/delay_determination.py:505-509 | when the first signal is the longer one, the fold is the circular correlation |
| CircularCorrelation.PeakAtDelay | sw/ab_cal_scripts/delay_determination.py:481-491 | a signal against itself delayed by d: no lag beats d, and one equals it if and only if the signal repeats at that distance |
| CircularCorrelation.PeakFound | sw/ab_cal_scripts/delay_determination.py:503-512 | the same in the returned arrays: the entry labelled d is a maximum |
| CircularCorrelation.CrossCheck | sw/ab_cal_scripts/edge_sfd.py:198-201 | swapping the signals gives the same values at the negated lags |
| CircularCorrelation.TurnIsMod | sw/ab_cal_scripts/delay_determination.py:504-509 | indices wrap to the remainder that is never negative |
| LinearCorrelation.CorrelateLinear | sw/ab_cal_scripts/delay_determination.py:385-475 | when which exception is raised; for windows that are not negative, with and without padding, the axis, the delay each entry is computed at, and zero elsewhere; for negative ones the entries pass by pass |
| LinearCorrelation.AllAligned | sw/ab_cal_scripts/delay_determination.py:398-451 | with a window that is not negative the call succeeds, no index wraps or leaves a signal, and entry i sums exactly window terms of samples whose indices differ by axis[i] |
| LinearCorrelation.EntryAligned | sw/ab_cal_scripts/delay_determination.py:416-446 | the same for one pass of the loop, in both index regimes |
| LinearCorrelation.AlignedIff | sw/ab_cal_scripts/delay_determination.py:398-433 | for all lengths, centers, shifts and windows of any sign: every pass pairs m samples at the distance its delay names if and only if both cuts have m samples and, unless there are none, the cut of signal2 that starts last ends inside it |
| LinearCorrelation.EntryIsPairs | sw/ab_cal_scripts/delay_determination.py:420-446 | for all signals and windows, a pass sums over the samples at two lists of indices, in range, or fails because their lengths differ |
| LinearCorrelation.AlignedSums | sw/ab_cal_scripts/delay_determination.py:420-446 | then, for all signals, it sums the terms of two stretches at its delay |
| LinearCorrelation.NonNegativeFits | sw/ab_cal_scripts/delay_determination.py:398-409 | windows that are not negative and fit meet that condition |
| LinearCorrelation.NegativeWindows | sw/ab_cal_scripts/delay_determination.py:398-409 | three negative windows the code accepts: one sums nothing, one is right, and in one an index wraps |
| LinearCorrelation.NegativeWindowWraps | sw/ab_cal_scripts/delay_determination.py:420-446 | the value in that last case: samples one apart under the delay -2 |
| LinearCorrelation.AsdfLowestAtDelay | sw/ab_cal_scripts/delay_determination.py:443-444 | for a delayed signal the square differences are zero at the delay and nowhere negative; zero elsewhere if and only if the windows agree |
| LinearCorrelation.AmdfIsDifferenceOfTotals | sw/ab_cal_scripts/delay_determination.py:445-446 | the magnitude differences are not magnitudes: an entry is the difference of two sums |
| LinearCorrelation.SumsOfKinds | sw/ab_cal_scripts/delay_determination.py:434-446 | DC is the inner product, and the square differences are the energies of both cuts less twice that |
| LinearCorrelation.BroadcastMeans | sw/ab_cal_scripts/delay_determination.py:434-446 | cuts of different lengths fail unless one is a single sample, which is then used for all |
| LinearCorrelation.PaddedKeeps | sw/ab_cal_scripts/delay_determination.py:453-471 | zero padding keeps every entry at its delay, leaves no gap in the axis and is zero elsewhere; how long the result is and where its axis starts |
| Peaks.BoolRelExtrema | sw/ab_cal_scripts/delay_determination.py:45-101 | a mark is set if and only if the sample beats both samples at every distance up to the order, early exit or not; an error for orders below one |
| Peaks.ClipMeans | sw/ab_cal_scripts/delay_determination.py:90-101 | clipped at the ends, an extremum is an inner sample that beats every sample within reach |
| Peaks.WrapMeans | sw/ab_cal_scripts/delay_determination.py:90-101 | wrapped, each sample is compared with those at both sides along the circle |
| Peaks.ArgRelMax | sw/ab_cal_scripts/delay_determination.py:148-228 | the indices of the maxima, each once, in ascending order |
| Peaks.NearestMaximumIndex | sw/ab_cal_scripts/delay_determination.py:610-623 | the local maximum nearest to the index, the lower one of two; an error if and only if there is none |
| Peaks.NearestUnique | sw/ab_cal_scripts/delay_determination.py:621-623 | that answer is unique |
| Peaks.DelayFound | sw/ab_cal_scripts/delay_determination.py:610-623 | with a right estimate, the delay of a signal is found in its circular correlation if and only if it is not at an end of the axis and the signal is not constant |
| PatternGenerator.ArrayFromPattern | sw/ab_cal_scripts/lib/pat_gen.py:28-71 | nothing if the pattern does not fit, else samples of an even number, the pattern in the middle and the padding level on both sides, and its times |
| PatternGenerator.PaddingTime | sw/ab_cal_scripts/lib/pat_gen.py:49-63 | outside the time of the pattern every sample is at the padding level |
| PatternGenerator.BitTime | sw/ab_cal_scripts/lib/pat_gen.py:53-59 | each bit is on its own samples, one after the other; exactly the last sample of an odd number is missing |
| PatternGenerator.ReadsBack | sw/ab_cal_scripts/lib/pat_gen.py:53-59 | every pattern can be read back from its samples, unless there is one sample per bit and an odd number of them |
| PatternGenerator.LastBitLost | sw/ab_cal_scripts/lib/pat_gen.py:39-53 | in that case the last bit leaves no trace |
| PtpMessages.HeaderUnpacks | sw/embedded/precompiled/wrpc-clb-cal-sw/msg.c:13-301 | after msg_pack_header and any sequence of packer calls on the one buffer, the data sets changing between them, every field a receiver reads: type, length, control and interval of the last message, its sequence id, the identity and version at msg_pack_header, the domain of the last Delay_Resp, the correction field that was left |
| PtpMessages.Counters | sw/embedded/precompiled/wrpc-clb-cal-sw/msg.c:101-246 | the n-th Sync, Announce or Delay_Req gets the n-th id after the start, modulo 2^16, whatever is packed between |
| PtpMessages.IdentityStays | sw/embedded/precompiled/wrpc-clb-cal-sw/msg.c:68-301 | version, flags, source port identity and reserved bytes are for ever what msg_pack_header left |
| PtpMessages.CallWrites | sw/embedded/precompiled/wrpc-clb-cal-sw/msg.c:87-301 | what each packer changes of the header a receiver reads, and that it changes nothing else |
| PtpMessages.HeaderWrite | sw/embedded/precompiled/wrpc-clb-cal-sw/msg.c:68-84 | which fields msg_pack_header sets |
| PtpMessages.StaleCorrection | sw/embedded/precompiled/wrpc-clb-cal-sw/msg.c:126-218 | an Announce or Follow_Up has a correction field other than zero if and only if the last Sync, Delay_Req or Delay_Resp packed was a Delay_Resp with one |
| PtpMessages.BodyUnpacks | sw/embedded/precompiled/wrpc-clb-cal-sw/msg.c:107-327 | the timestamp of every message unpacks to the one packed; an Announce carries zero |
| PtpMessages.AnnouncementUnpacks | sw/embedded/precompiled/wrpc-clb-cal-sw/msg.c:141-187 | the data sets in an Announce come back |
| PtpMessages.OwnRejected | sw/embedded/precompiled/wrpc-clb-cal-sw/msg.c:42-52 | a port never accepts what it sent, whatever it has packed before |
| PtpMessages.DelayExchange | sw/embedded/precompiled/wrpc-clb-cal-sw/msg.c:232-327 | between ports with different MAC addresses, a Delay_Req is accepted, and the Delay_Resp comes back accepted with the requester's identity, sequence id and correction field and the time of receipt, whatever both ports packed before |
| PtpMessages.ClockIdentityInjective | sw/embedded/precompiled/wrpc-clb-cal-sw/state-initializing.c:25-35 | clock identities are equal if and only if the MAC addresses are |
| PtpMessages.Port.Initialize | sw/embedded/precompiled/wrpc-clb-cal-sw/state-initializing.c:25-67 | identity and port number are set from MAC address and index, intervals, announce timeout and version from options and defaults, and the header is packed; nothing else changes |
| PtpMessages.Port.MsgPackHeader | sw/embedded/precompiled/wrpc-clb-cal-sw/msg.c:68-84 | in place, the buffer becomes the packed header over the old bytes |
| PtpMessages.Port.MsgPackSync | sw/embedded/precompiled/wrpc-clb-cal-sw/msg.c:87-112 | in place, buffer and counter |
| PtpMessages.Port.MsgPackAnnounce | sw/embedded/precompiled/wrpc-clb-cal-sw/msg.c:126-160 | in place, buffer, counter and length |
| PtpMessages.Port.MsgPackFollowUp | sw/embedded/precompiled/wrpc-clb-cal-sw/msg.c:190-218 | in place, with the sequence id of the last Sync and no new one |
| PtpMessages.Port.MsgPackDelayReq | sw/embedded/precompiled/wrpc-clb-cal-sw/msg.c:232-259 | in place, buffer and counter |
| PtpMessages.Port.MsgPackDelayResp | sw/embedded/precompiled/wrpc-clb-cal-sw/msg.c:262-301 | in place, the answer to the header last received |
| PtpMessages.Port.MsgUnpackHeader | sw/embedded/precompiled/wrpc-clb-cal-sw/msg.c:13-65 | the header is stored even when it is the port's own and rejected; the parent flag follows only accepted ones |
| PtpWire.HeaderBytes | sw/embedded/precompiled/wrpc-clb-cal-sw/msg.c:68-84 | byte by byte, what msg_pack_header writes and what it leaves |
| PtpWire.SyncBytes | sw/embedded/precompiled/wrpc-clb-cal-sw/msg.c:87-112 | every byte of the buffer after a Sync, numbers with the high byte first |
| PtpWire.AnnounceBytes | sw/embedded/precompiled/wrpc-clb-cal-sw/msg.c:126-160 | every byte after an Announce |
| PtpWire.FollowUpBytes | sw/embedded/precompiled/wrpc-clb-cal-sw/msg.c:190-218 | every byte after a Follow_Up |
| PtpWire.DelayReqBytes | sw/embedded/precompiled/wrpc-clb-cal-sw/msg.c:232-259 | every byte after a Delay_Req |
| PtpWire.DelayRespBytes | sw/embedded/precompiled/wrpc-clb-cal-sw/msg.c:262-301 | every byte after a Delay_Resp |
| PtpWire.HeaderRead | sw/embedded/precompiled/wrpc-clb-cal-sw/msg.c:17-45 | which bytes of the buffer each field of the header is read from |
| PtpWire.AcceptedRead | sw/embedded/precompiled/wrpc-clb-cal-sw/msg.c:47-52 | a message is rejected if and only if bytes 20 to 27 are the own clock identity |
| PtpWire.TimestampRead | sw/embedded/precompiled/wrpc-clb-cal-sw/msg.c:115-123 | the bytes of a timestamp |
| PtpWire.AnnouncementRead | sw/embedded/precompiled/wrpc-clb-cal-sw/msg.c:163-187 | the bytes of the data sets in an Announce |
| PtpWire.RequesterRead | sw/embedded/precompiled/wrpc-clb-cal-sw/msg.c:315-327 | the bytes of the requesting port |
| Timestamps.TsAdd | sw/embedded/precompiled/wrpc-clb-cal-sw/wrpc-socket.c:13-30 | the sum keeps its value in picoseconds, excess is carried and nothing is borrowed |
| Timestamps.TsSub | sw/embedded/precompiled/wrpc-clb-cal-sw/wrpc-socket.c:32-49 | the difference keeps its value, deficits are borrowed and nothing is carried |
| Timestamps.CarriedUnique | sw/embedded/precompiled/wrpc-clb-cal-sw/wrpc-socket.c:13-30 | that determines the result of ts_add |
| Timestamps.BorrowedUnique | sw/embedded/precompiled/wrpc-clb-cal-sw/wrpc-socket.c:32-49 | that determines the result of ts_sub |
| Timestamps.AddNormal | sw/embedded/precompiled/wrpc-clb-cal-sw/wrpc-socket.c:21-28 | a sum is normal if and only if no component is below zero after the carry |
| Timestamps.SubNormal | sw/embedded/precompiled/wrpc-clb-cal-sw/wrpc-socket.c:40-47 | a difference is normal if and only if no component is too large after the borrow |
| Timestamps.CorrectBitslide | sw/embedded/precompiled/wrpc-clb-cal-sw/wrpc-socket.c:106-116 | for every raw time and bitslide, the result is the normal form of the time minus the bitslide in picoseconds |
| Timestamps.NormalUnique | sw/embedded/precompiled/wrpc-clb-cal-sw/wrpc-socket.c:114-116 | a time has one normal form |
| Timestamps.AddBack | sw/embedded/precompiled/wrpc-clb-cal-sw/wrpc-socket.c:13-49 | adding back what was subtracted gives the normal form of the start, when its components are not negative |
| Timestamps.AddBackAny | sw/embedded/precompiled/wrpc-clb-cal-sw/wrpc-socket.c:13-49 | for all components, exactly when it does, in terms of the two times |
| Timestamps.AddBackFails | sw/embedded/precompiled/wrpc-clb-cal-sw/wrpc-socket.c:13-49 | a negative amount for which it does not |

## Left out

- DocoptSound.Soundness: for leaves that do not accumulate; a leaf with a number or a list changes a value that survives failed branches.
- DocoptComplete.MatchesIff: a condition on the pattern alone, and sufficient; it is exact for an optional leaf before a leaf (OptionalThenIff). Whether a longer pattern that fails it misses a match is not characterised.
- DocoptAccepts.AcceptsIff: a condition on the pattern alone, and sufficient; it is exact for `[a] b` and `[a] [(b c)]`. "..." is covered around patterns without choices.
- DocoptParsed.ParsedIsNormal: for trees that a usage pattern can show; the parser also accepts "..." after stacked short options, "..." as a command and "--" as a short option, which print differently.
- DocoptPrint.PrintText: `__repr__` of the source is not a usage pattern; the printer is the model's own.
- DocoptFix.Fix: the order that `list(set(...))` gives is not modelled; any list with one leaf per content will do.
- docopt's text scanning (`parse_section`, `parse_defaults`, `Tokens.from_pattern`) and `parse_argv`: the parser starts from token lists, in the mode for usage patterns.
- docopt's `Pattern.__eq__` compares printed forms; the model compares the values printed.
- Characters: `isupper` and `split` are modelled for ASCII.
- VHDL values other than '0' and '1', undefined start values, asynchronous resets in the middle of a run, and clock crossings.
- FirePacketGen.BurstReturns: for numwords and numpackets of at least one, constant during the burst; the tied values are 9 and 16.
- TransmitFrame.FireSendsAll: for at least one frame in the table, and no frame without words.
- `gc_crc_gen` is not part of this model: TransmitFrame shows where its two halves are sent and which words it takes. The byte order selected by `tx_data_swap` and the frame table `f_init_frames` are parameters or left out; words that were never set read as 0.
- `HexToStdLogicVector`, ActivityLEDs, DummyTx, and all structural VHDL: easy members or none.
- CircularCorrelation.Correlate: exact sums in place of the fast Fourier transform, so no rounding; empty signals and `time_domain=True` are left out.
- LinearCorrelation.CorrelateLinear: the type checks, the message texts and a `length` that is not an integer.
- PatternGenerator.ArrayFromPattern: samples per bit and sample period are given; their float computation is left out.
- Peaks.NearestMaximumIndex: one index; `peak_position` selects it by float comparisons and refines the peak by splines, both left out.
- PtpMessages.Counters: signed fields are kept as bit patterns, and lengths and flag values come from the standard, since the ppsi headers are not part of this model.
- PtpMessages.Port.MsgPackAnnounce: without the extension hooks.
- PtpMessages.Port.Initialize: without the network, the extension hook and the choice of the next state; the values of the defaults are parameters.
- Sending, logging, timers, the state table and the other states of the PTP stack; in `msg_issue_sync_followup` the Follow_Up is never packed, so its packer is modelled as it stands.
- Timestamps.TsAdd: fields are integers without a width; sums that leave 32 bits are not modelled.
- Instrument drivers, plotting, statistics and file formats.
