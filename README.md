# Compound naming engine — a Dafny model

This project models the naming-rule engine of a chemistry quiz: the functions
of `src/utils/naming.js` and the reference tables and helpers of
`src/utils/data.js` that it draws on. The engine does four things:

- **Naming.** It names ionic compounds from a cation and an anion. The charges
  are reduced by their greatest common divisor, and a Roman numeral is added
  for variable-valence metals. It names binary covalent compounds from two
  nonmetals and their counts, using Greek prefixes, element roots and vowel
  elision before "oxide". It also names acids and bases.
- **Formula markup.** It renders formulas as HTML: digit runs become
  `<sub>` subscripts, charges become `<sup>` superscripts, polyatomic groups
  are parenthesised, and stray charge notation is cut off the tokens.
- **Classification.** It classifies formulas as ionic or covalent, as one of
  the common classroom covalent ratios, or as acid, base, ionic or covalent
  by a text heuristic.
- **Quiz.** It generates random ionic or covalent challenges and checks a
  learner's answer against the expected name and its accepted aliases, after
  normalising both.

The model is split into modules that follow the source:

| module | file | models |
|---|---|---|
| `JsText` | `jstext.dfy` | the JavaScript string built-ins the engine relies on: `\s`, ASCII `toLowerCase`, `trim`, `startsWith`/`endsWith`/`includes`, and number-to-text |
| `Data` | `data.dfy` | the tables of `data.js` (cations, anions, acids, bases, molecular compounds, nonmetals, prefixes, roots, transition metals) and `elementRoot`, `isTransitionMetal`, `aliasAccept`, `nameBinaryAcid`, `nameOxyacid`, `nameBase`, `getCompoundName`, `compareForms`, `getCompoundType` |
| `Markup` | `markup.dfy` | `coreToHtml`, `ionTokenHtml`, `formatFormula` |
| `Namers` | `namers.dfy` | `gcd`, `nameIonicFromParts`, `transitionCationName`, `nameCovalentFromParts` |
| `Heuristics` | `heuristics.dfy` | `covalentLooksCommon` (an in-place sort of an array copy) as written and with the lookup corrected (see Findings), `classifyFromParts` |
| `Normalize` | `normalize.dfy` | `normalizeName` |
| `Challenges` | `challenge.dfy` | `pick`, `randomChallenge` (with its bounded re-draw loop), `checkAnswer` |

Modelling conventions:

- An absent string field (`core`, `acidForm`, `baseForm`) is the empty
  string. JavaScript's `||` treats the empty string as absent too.
- An absent or zero `count` is 0.
- `Math.random` is a parameter `rand: nat -> real`. Its k-th call is
  `rand(k)`, and every value lies in [0, 1).
- `toRoman` (from `roman.js`, which is not part of this model) is an
  uninterpreted parameter `toRoman: nat -> string`.
- The random challenge identifier is a parameter `id`.

Two details of the source are kept as they are:

- `transitionCationName` asks `isTransitionMetal` about the charged display
  symbol (`"Fe2+"`). That symbol never matches the bare symbols of the
  transition-metal list, so for every cation of the table the numeral
  depends on `alwaysRoman` alone (`Namers.RomanIffAlwaysRoman`). No output
  changes, because every cation that has `multiple` also has `alwaysRoman`
  (`Data.TableInvariants`).
- `getCompoundType` compares with a literal meant to be "NH₃". In the file it
  is stored as the UTF-8 bytes of the subscript three read as Windows-1251
  text. The model keeps that literal exactly (`Data.AmmoniaLiteral`), so a
  real "NH₃" does not reach the base branch through it.

`getCompoundType`'s ionic test is two regular expressions. The model follows
the code: a formula is ionic when it has at least two capital letters, or
when it has one capital letter and is longer than two characters. "Two
capitals" alone is not the rule.

## Model

| member | source | states |
|---|---|---|
| JsText.Lower | src/utils/naming.js:134 | `toLowerCase` with ASCII folding: same length, each character folded on its own |
| JsText.LowerAppend | src/utils/naming.js:134 | lower-casing a concatenation is the concatenation of the lower-cased pieces |
| JsText.RemoveSpaces | src/utils/naming.js:28 | the result holds no whitespace and only characters of the input; text without whitespace is unchanged |
| JsText.RemoveSpacesAppend | src/utils/naming.js:28 | removing whitespace from a concatenation is the concatenation of the pieces with whitespace removed |
| JsText.RemoveSpacesChar | src/utils/naming.js:28 | a single character is dropped exactly when it is whitespace |
| JsText.Trim | src/utils/naming.js:122 | `trim`: neither end of the result is whitespace; text whose ends are not whitespace is unchanged |
| JsText.TrimIsSlice | src/utils/naming.js:134 | `trim` keeps one contiguous run of its input, and everything it drops on either side is whitespace |
| JsText.TrimTrailingSpace | src/utils/naming.js:134 | a single trailing space after text whose ends are not whitespace is trimmed away, and nothing else |
| JsText.ParseNatToString | src/utils/naming.js:17 | the decimal text of a count (`String(n)`) reads back as the same number |
| Data.TableInvariants | src/utils/data.js:1-201 | every cation is positive and every anion negative; a cation has `alwaysRoman` exactly when it has `multiple`; every acid and base is aqueous |
| Data.IndexWhere | src/utils/data.js:354 | `find`: the index found satisfies the predicate and no earlier one does; nothing is found exactly when no element satisfies it |
| Data.ElementRoot | src/utils/data.js:312-313 | the root-table stem for the ten listed symbols; the lower-cased symbol for any other |
| Data.AliasAccept | src/utils/data.js:315-324 | the alias list depends only on the formula text of the parts: H2O, NH3, NO and N2O give their fixed lists, every other formula gives none |
| Data.JoinTokensAppend | src/utils/data.js:316 | the joined formula text of a concatenation of parts is the concatenation of their texts |
| Data.NameBinaryAcid | src/utils/data.js:327-330 | "hydro", then exactly the element's root, then "ic acid" |
| Data.NameOxyacid | src/utils/data.js:332-340 | a trailing "ate" becomes "ic acid" (more oxygen) and a trailing "ite" becomes "ous acid" (less oxygen), the stem kept; a name without that suffix comes back unchanged |
| Data.NameBase | src/utils/data.js:343-349 | the metal name followed by " hydroxide", whatever the hydroxide count |
| Data.FindByFormula | src/utils/data.js:354 | the index found is the first table entry with the formula; nothing is found only when no entry has it |
| Data.FindMolecular | src/utils/data.js:362 | the index found is the first molecular compound with the formula; nothing is found only when none has it |
| Data.FindByFormulaFirst | src/utils/data.js:354-358 | the lookup returns the first entry carrying the formula |
| Data.GetCompoundName | src/utils/data.js:352-366 | a formula not found in the tables of its state comes back as the name itself |
| Data.GetCompoundNameAcid | src/utils/data.js:353-356 | an aqueous formula listed among the acids gets the first such acid's name |
| Data.GetCompoundNameBase | src/utils/data.js:358-359 | an aqueous formula that is no acid but is listed among the bases gets the first such base's name |
| Data.GetCompoundNameMolecular | src/utils/data.js:360-363 | in any state other than aqueous, the formula gets the name of the first molecular compound carrying it |
| Data.CompareForms | src/utils/data.js:369-387 | null exactly when the formula is not a molecular compound; otherwise the compound's own record, its aqueous name `acidForm` or else `baseForm`, and "Acidic solution" exactly when it has an acid form |
| Data.FirstCapital | src/utils/data.js:548 | the first match of `[A-Z][a-z]?` starts at the first capital letter; there is none exactly when there is no capital |
| Data.RemoveFirstElementCount | src/utils/data.js:548 | removing the first `[A-Z][a-z]?` match removes exactly one capital letter |
| Data.CountCapitals | src/utils/data.js:548 | the number of capital letters is never more than the length of the formula; its value is fixed by the two lemmas below |
| Data.CountCapitalsChar | src/utils/data.js:548 | one character counts 1 exactly when it is a capital letter |
| Data.CountCapitalsAppend | src/utils/data.js:548 | the capital letters of a concatenation are those of its pieces added up |
| Data.HasMetalIsTwoCapitals | src/utils/data.js:548 | the two-regex metal test holds exactly when the formula has at least two capital letters |
| Data.GetCompoundType | src/utils/data.js:537-558 | acid before base before ionic before covalent: acid iff aqueous with a leading H; base iff not acid and containing "OH" or equal to the ammonia literal; ionic iff neither and with two capitals, or one capital and more than two characters |
| Markup.LeadingDigits | src/utils/naming.js:10 | the digit run at the start of a text is within it and is not empty when the text starts with a digit |
| Markup.LeadingDigitsRun | src/utils/naming.js:10 | the measured run is maximal: all digits, and the character after it is not one |
| Markup.LeadingDigitsAppend | src/utils/naming.js:10 | the leading digit run of a text is not lengthened by what follows when that does not continue a run of digits |
| Markup.CoreToHtmlNoDigits | src/utils/naming.js:9-11 | a core without digits comes back unchanged |
| Markup.CoreToHtmlDigitRun | src/utils/naming.js:9-11 | a non-empty run of digits becomes one `<sub>` element around exactly that run |
| Markup.CoreToHtmlAppend | src/utils/naming.js:9-11 | when the join is not between two digits, the markup of a concatenation is the concatenation of the markups |
| Markup.CoreToHtmlWordRun | src/utils/naming.js:9-11 | letters followed by a digit run give the letters, then the run inside one `<sub>` element |
| Markup.CoreToHtmlExamples | src/utils/naming.js:8-11 | "SO4" becomes `SO<sub>4</sub>` and "NH4" becomes `NH<sub>4</sub>` |
| Markup.UntagCoreToHtml | src/utils/naming.js:9-11 | `coreToHtml` adds only subscript tags: with them removed the core comes back, and the markup that follows it is read on its own |
| Markup.ChargeText | src/utils/naming.js:15-17 | the charge text ends in `+` for a positive charge and in the minus sign otherwise, everything before the sign is digits, and the text is the sign alone exactly when the magnitude is 1 |
| Markup.ChargeTextRoundTrip | src/utils/naming.js:15-17 | the superscript charge text (magnitude omitted when 1, then `+` or the minus sign) reads back as the signed charge |
| Markup.IonTokenHtml | src/utils/naming.js:14-19 | the core's markup, then `<sup>`, then a charge text that reads back as the charge, then `</sup>` |
| Markup.TrailingDigits | src/utils/naming.js:28 | the digit run at the end of a text is maximal |
| Markup.TrailingSpaces | src/utils/naming.js:28 | the whitespace run at the end of a text is maximal |
| Markup.ChargeStartMatches | src/utils/naming.js:28 | what is cut off is spaces, then digits, then a final sign |
| Markup.ChargeStartLeftmost | src/utils/naming.js:28 | no suffix starting before the cut matches the charge pattern, so the cut is the leftmost match |
| Markup.StripCharge | src/utils/naming.js:28 | the result is a prefix of the token; with a final sign the removed suffix is the leftmost match of `\s*[0-9]*[+−-]$`; without one the token is unchanged |
| Markup.TokenOfPlainCore | src/utils/naming.js:26-28 | a core of letters and digits is its own token: no charge is stripped and no whitespace removed |
| Markup.UntagTokenMarkup | src/utils/naming.js:29-34 | a part's markup, tags removed, reads as its token, in parentheses when polyatomic and counted more than once, then the count when above 1 |
| Markup.UntagCountedMarkup | src/utils/naming.js:31-33 | a simple token counted n > 1 reads as the token followed by n |
| Markup.UntagPolyMarkup | src/utils/naming.js:29-30 | a polyatomic token counted n > 1 reads as the token in parentheses followed by n |
| Markup.FormatPart | src/utils/naming.js:24-34 | one part's markup reads, tags removed, as that part's formula text |
| Markup.FormatFormulaSingle | src/utils/naming.js:29-34 | a single part gives its token's markup, in parentheses and followed by a `<sub>` count when polyatomic and counted more than once, followed by the `<sub>` count when simple and counted more than once, and bare otherwise |
| Markup.FormatFormulaExample | src/utils/naming.js:22-36 | aluminium counted 2 and polyatomic sulfate counted 3 give `Al<sub>2</sub>(SO<sub>4</sub>)<sub>3</sub>` |
| Markup.FormatFormula | src/utils/naming.js:22-36 | the markup of a part list reads, tags removed, as the parts' formula texts in input order with no separator |
| Markup.FormatFormulaAppend | src/utils/naming.js:24-35 | formatting a concatenation of part lists is the concatenation of their formats |
| Namers.Gcd | src/utils/naming.js:132 | Euclid's `gcd` divides both arguments (and is 0 only for two zeros) |
| Namers.GcdGreatest | src/utils/naming.js:132 | every common divisor divides the `gcd` |
| Namers.Subscripts | src/utils/naming.js:61-63 | the cation count is positive, the anion count is positive for a charged cation, and the counts balance the charge magnitudes |
| Namers.SubscriptsCoprime | src/utils/naming.js:61-63 | the two subscripts are in lowest terms |
| Namers.OxidationNumber | src/utils/naming.js:64 | the recovered oxidation number is always the cation's own charge magnitude |
| Namers.TransitionCationName | src/utils/naming.js:70-74 | the name carries a Roman numeral exactly when the cation always takes one or is a transition metal with several charges |
| Namers.NameIonic | src/utils/naming.js:60-68 | the cation name (with the numeral of its own charge when it needs one), a space, the anion name |
| Namers.NameIonicEnds | src/utils/naming.js:67 | an ionic name starts with the cation's name and ends with a space and the anion's name |
| Namers.RomanIffAlwaysRoman | src/utils/naming.js:71 | no cation's display symbol is in the transition-metal list, so for every cation of the table the numeral is added exactly when `alwaysRoman` holds |
| Namers.PrefixText | src/utils/naming.js:78-79 | the Greek prefix for counts 1 to 10; the count's digits and a hyphen otherwise |
| Namers.SecondWord | src/utils/naming.js:79-86 | the second word always ends with the second element's root followed by "ide" |
| Namers.SecondWordNonmetal | src/utils/naming.js:79-86 | for every nonmetal of the table and a count from 1 to 10: the Greek prefix, with its last vowel dropped exactly when the element is oxygen and the count is neither 2 nor 3, then the root and "ide" |
| Namers.SecondWordNumeric | src/utils/naming.js:79-86 | a count outside 1 to 10 gives the count's decimal text, a hyphen, then the root and "ide" |
| Namers.NameCovalent | src/utils/naming.js:77-89 | the first word is the bare element name when its count is 1 and is prefixed otherwise; a space; then the always-prefixed second word; and the length is exactly the sum of those pieces, so nothing else is in the name |
| Namers.PrefixVowel | src/utils/data.js:311 | every Greek prefix except di and tri ends in an elidable `a` or `o` |
| Namers.RootStartsWithO | src/utils/data.js:312-313 | among the nonmetals only oxygen's "-ide" word starts with `o` |
| Namers.ElisionOnlyBeforeOxygen | src/utils/naming.js:82-84 | the prefix vowel is elided exactly for oxygen and a prefix other than di and tri |
| Namers.NitrogenMonoxide | src/utils/naming.js:77-89 | nitrogen counted 1 and oxygen counted 1 give "nitrogen monoxide" |
| Namers.DinitrogenPentoxide | src/utils/naming.js:77-89 | nitrogen counted 2 and oxygen counted 5 give "dinitrogen pentoxide" |
| Heuristics.EntryOf | src/utils/naming.js:45 | the copy keeps the symbol and reads a missing or zero count as 1 |
| Heuristics.Entries | src/utils/naming.js:45 | the copy has one entry per part, in order |
| Heuristics.EntriesAppend | src/utils/naming.js:45 | copying a concatenation of parts is the concatenation of the copies |
| Heuristics.SymbolKeyAppend | src/utils/naming.js:47 | the key of a concatenation of entries is the concatenation of their keys |
| Heuristics.InsertStable | src/utils/naming.js:46 | one insertion step adds exactly the inserted entry |
| Heuristics.SortBySymbol | src/utils/naming.js:46 | the sort is a permutation of its input |
| Heuristics.SortBySymbolSorted | src/utils/naming.js:46 | the sort's result is ordered by symbol |
| Heuristics.InsertStableSorted | src/utils/naming.js:46 | inserting into a sorted sequence keeps it sorted |
| Heuristics.SortBySymbolStrict | src/utils/naming.js:46 | with distinct symbols the result is strictly ordered |
| Heuristics.StrictlySortedUnique | src/utils/naming.js:46 | two strictly ordered arrangements of the same entries are equal |
| Heuristics.EntriesPermutation | src/utils/naming.js:45 | rearranging the parts rearranges their copies the same way |
| Heuristics.InsertAt | src/utils/naming.js:46 | one pass of the in-place insertion sort leaves the prefix as the stable insertion of the new entry and the rest untouched |
| Heuristics.SortInPlace | src/utils/naming.js:46 | the in-place sort leaves the array holding the stable sort by symbol of its old contents |
| Heuristics.SortedKey | src/utils/naming.js:45-47 | copying the parts, sorting the copy in place and joining gives the key of the stable sort by symbol of the copies |
| Heuristics.CovalentLooksCommon | src/utils/naming.js:43-49 | the verdict holds exactly when the key spelled by the sorted copies is one of the common covalent formulas |
| Heuristics.LooksCommonOrderIndependent | src/utils/naming.js:43-49 | any rearrangement of parts with distinct symbols sorts to the same sequence, so the verdict does not depend on order |
| Heuristics.AmmoniaNotCommon | src/utils/naming.js:39-48 | as written: nitrogen counted 1 with hydrogen counted 3 sorts to the key "H3N", which is not in the list, although "NH3" is |
| Heuristics.CommonEntrySpelled | src/utils/naming.js:39-41 | each entry list of the corrected lookup spells, as a key, the formula listed at the same position |
| Heuristics.CommonEntriesSpellCommon | src/utils/naming.js:39-41 | the keys of the entry lists are exactly the set of common formulas |
| Heuristics.CommonEntriesDistinct | src/utils/naming.js:39-41 | every formula of the common list, read as entries, has distinct symbols |
| Heuristics.CovalentLooksCommonSorted | src/utils/naming.js:43-49 | corrected: the verdict holds exactly when the sorted key is the sorted key of some listed formula |
| Heuristics.AmmoniaCommonSorted | src/utils/naming.js:39-48 | corrected: nitrogen counted 1 with hydrogen counted 3 is recognised |
| Heuristics.CommonFormulaRecognised | src/utils/naming.js:39-49 | corrected: any arrangement of the elements and counts of any listed formula is recognised |
| Heuristics.Symbols | src/utils/naming.js:54 | the ion symbol list holds each ion's symbol, in order |
| Heuristics.ClassifyFromParts | src/utils/naming.js:53-57 | ionic exactly when some part carries the symbol of a listed cation or anion |
| Heuristics.IonSymbolSigned | src/utils/naming.js:54 | every ion symbol ends in its charge sign |
| Heuristics.NonmetalNotIon | src/utils/naming.js:54-55 | no nonmetal symbol is an ion symbol |
| Heuristics.NonmetalsAreCovalent | src/utils/naming.js:53-57 | a formula made only of nonmetal symbols classifies as covalent |
| Heuristics.IonPartIsIonic | src/utils/naming.js:53-57 | a formula holding a listed ion classifies as ionic |
| Normalize.DropNonAlnum | src/utils/naming.js:134 | the result is no longer than the input and, when not empty, starts with a character of `[a-z0-9]` |
| Normalize.DropNonAlnumDropped | src/utils/naming.js:134 | the result is a suffix of the input, and every character dropped in front of it is outside `[a-z0-9]` |
| Normalize.DropNonAlnumGap | src/utils/naming.js:134 | a run without `[a-z0-9]` in front of a word, or of nothing, is dropped completely and the rest is kept |
| Normalize.DropNonAlnumAppend | src/utils/naming.js:134 | once the text reaches a character of `[a-z0-9]`, everything after it is kept untouched |
| Normalize.CollapseNonAlnum | src/utils/naming.js:134 | the result is empty exactly when the input is, and starts with the input's first character when that is in `[a-z0-9]` and with a space otherwise |
| Normalize.CollapseNonAlnumShape | src/utils/naming.js:134 | the result holds only `[a-z0-9]` and spaces, never two spaces in a row |
| Normalize.CollapseGapThen | src/utils/naming.js:134 | a run of non-`[a-z0-9]` characters followed by a word, or by nothing, becomes exactly one space in front of that text's collapse |
| Normalize.CollapseSeparator | src/utils/naming.js:134 | between two words, any non-empty run of other characters collapses to exactly one space, and the text on either side collapses on its own |
| Normalize.CollapseSeparatorGap | src/utils/naming.js:134 | the same one-space rule when the text before the separator itself starts with a gap |
| Normalize.AlnumOfCollapse | src/utils/naming.js:134 | collapsing keeps every letter and digit, in order |
| Normalize.AlnumOfTrim | src/utils/naming.js:134 | trimming keeps every letter and digit, in order |
| Normalize.NormalizeNameKeepsAlnum | src/utils/naming.js:134 | `normalizeName` keeps every letter and digit of the lower-cased text, in order |
| Normalize.TrimNormalized | src/utils/naming.js:134 | trimming words and single spaces gives a normal form |
| Normalize.NormalizeNameNormalized | src/utils/naming.js:134 | any input normalises to `[a-z0-9]` words separated by single spaces, with no space at either end |
| Normalize.CollapseFixed | src/utils/naming.js:134 | text already made of words and single spaces is not changed by the collapsing step |
| Normalize.NormalizedFixed | src/utils/naming.js:134 | a normalised name is its own normal form |
| Normalize.NormalizeNameIdempotent | src/utils/naming.js:134 | normalising twice is normalising once |
| Normalize.NormalizeNameEmpty | src/utils/naming.js:134 | the normal form is empty exactly when the lower-cased text has no ASCII letter or digit |
| Normalize.CollapseTwoWords | src/utils/naming.js:134 | two lower-case words with any separator between them and any trailing punctuation collapse and trim to the words joined by one space |
| Normalize.NormalizeTwoWords | src/utils/naming.js:134 | `normalizeName` of two letter-or-digit words, any non-empty separator and trailing punctuation is the two lower-cased words joined by one space |
| Normalize.NormalizeNameExamples | src/utils/naming.js:134 | "Sodium   Chloride!", "sodium-chloride" and "SODIUM CHLORIDE" all normalise to "sodium chloride" |
| Challenges.Pick | src/utils/naming.js:133 | the picked index is inside the table |
| Challenges.FilterCharge | src/utils/naming.js:96-97 | the filter keeps only ions of the requested sign, and keeps the whole list when every ion has it |
| Challenges.FilterChargeSingle | src/utils/naming.js:96-97 | a single ion is kept exactly when its charge has the requested sign |
| Challenges.FilterChargeAppend | src/utils/naming.js:96-97 | filtering a concatenation is the concatenation of the filtered pieces, so the kept ions stay in table order |
| Challenges.FiltersKeepTables | src/utils/naming.js:96-97 | both charge filters of the ionic branch keep the whole table |
| Challenges.IonicChallengeBalanced | src/utils/naming.js:98-104 | both counts of an ionic challenge are positive, they cancel the charges, and they are in lowest terms |
| Challenges.IonicChallengeClassified | src/utils/naming.js:101-107 | an ionic challenge is of kind ionic and its parts classify as ionic |
| Challenges.IonicChallengeNamed | src/utils/naming.js:105 | an ionic challenge's expected name starts with the cation's name and ends with the anion's |
| Challenges.CovalentChallengeSound | src/utils/naming.js:114-117 | a covalent challenge from the nonmetal table is of kind covalent, its parts classify as covalent, and they carry the drawn counts |
| Challenges.NitrogenMonoxideChallenge | src/utils/naming.js:114-117 | one nitrogen and one oxygen give the expected name "nitrogen monoxide" and exactly that alias |
| Challenges.RedrawNonmetal | src/utils/naming.js:110-111 | at most five re-draws, each one caused by a collision with the first nonmetal; the second nonmetal differs from the first unless the limit was reached |
| Challenges.IonicDraw | src/utils/naming.js:95-107 | the ionic branch builds the challenge for the drawn cation and anion, and it classifies as ionic |
| Challenges.CovalentOutcomeCounts | src/utils/naming.js:112-116 | a covalent challenge's first count is from 1 to 3 and its second from 1 to 5, and its aliases are those of its own name and parts |
| Challenges.RandomCovalent | src/utils/naming.js:108-118 | the covalent branch draws the two nonmetals with the bounded re-draw, then the two counts, and classifies as covalent |
| Challenges.RandomChallenge | src/utils/naming.js:93-119 | ionic exactly when the first draw is below 0.7; an ionic result is the challenge of the drawn cation and anion, a covalent one is the covalent outcome; either way its parts classify as its kind |
| Challenges.KindNameCanonical | src/utils/naming.js:122 | the kind names are their own lower-cased, trimmed form |
| Challenges.NormalizeAll | src/utils/naming.js:125 | each alias is normalised, in order |
| Challenges.CheckAnswer | src/utils/naming.js:121-128 | the type is right exactly when the trimmed, lower-cased guess is the kind's name; the name is right exactly when its normal form is the expected name's or some alias's; the expected name and aliases come back unchanged |
| Challenges.ExpectedAnswerPasses | src/utils/naming.js:121-128 | answering with the challenge's own kind and name passes both checks |
| Challenges.AcceptedAliasPasses | src/utils/naming.js:125-126 | every accepted alias passes the name check |
| Challenges.BlankNameFails | src/utils/naming.js:121-128 | a guess without letters or digits fails when the expected name and every alias have one |

## Findings

| source | as written | input that shows it | evidently intended | confidence | as-written member | corrected member |
|---|---|---|---|---|---|---|
| src/utils/naming.js:39-48 | the parts are sorted by symbol before the key is spelled, but the key is looked up in a set of formulas written in conventional order | nitrogen counted 1 with hydrogen counted 3 spells "H3N", which is not in the set although "NH3" is; likewise SO2 gives "O2S" and HCl gives "ClH"; 10 of the 28 listed formulas (NH3, SO2, SO3, OF2, SF6, HF, HCl, HBr, PCl3, PCl5) can never be recognised | every listed formula is recognised whatever the order of its parts | not executed (high: the key order follows from the sort alone) | Heuristics.AmmoniaNotCommon | Heuristics.CovalentLooksCommonSorted, Heuristics.CommonFormulaRecognised |

## Left out

- The React components (`Builder.jsx`, `Practice.jsx`, `AcidsBases.jsx`, `Help.jsx`, `App.jsx`, `ScoreBar.jsx`) are user-interface state, markup and timers. The score clamping and the floating-point grading of the score bar go with them.
- `Math.random` and `crypto.getRandomValues` are replaced by the parameters `rand` and `id`. The random identifier's format (base-36 text of two 32-bit words) is not modelled.
- `toRoman` comes from `roman.js`, which is not part of this model. It is an uninterpreted parameter, so the model says which number is converted, not what the numeral looks like.
- `localeCompare` in `covalentLooksCommon` is locale-dependent. The model sorts by ordinal (code-point) order. That agrees with it on the nonmetal symbols, but can differ where the first difference is a change of case ("Na" against "NH").
- `toLowerCase` folds ASCII letters only. Unicode case folding is not modelled.
- The display-only tables (`ionComparison`, `oxyanions`, `stateSymbols`, `namingPatterns`, `namingRules`) are not used by any modelled function.
- The `rootMap` lookup on inherited JavaScript object keys (such as `"constructor"`) is not modelled. Such a symbol falls back to its lower-cased text.
- Namers.NameIonic: requires a nonzero anion charge. With a zero charge the source divides by zero and passes NaN to `toRoman`. Every anion of the table is charged.
- Namers.Subscripts: requires a nonzero anion charge, for the same reason.
- Namers.OxidationNumber: requires a nonzero anion charge, for the same reason.
- Challenges.Pick: states only that the index is inside the table. That it is the floor of `r * n` is its definition.
- Challenges.RedrawNonmetal: counts only the re-draws. The source's `tries++ < 5` also increments on the test that ends the loop, but that value is never read.
- Markup.FormatFormula: the statement that the markup reads back as the formula text assumes no token contains `<`. The tokens of the tables contain none.
- `checkAnswer`'s `q.accepted || []` default is not modelled: every challenge carries an alias list, possibly empty.
- Counts are natural numbers. The source's `Number(count)` on text or fractional counts is not modelled.
- `getCompoundType`'s `state = ''` default is the caller passing the empty string.
