# file2ddl column type inference, in Dafny

file2ddl reads a delimited text file and proposes a SQL column type for each
column. Its first line gives the column names. Every later line is split on a
single-character delimiter. Each field is classified against an ordered catalog
of database types, and the column keeps the least specific type seen. The only
catalog is PostgreSQL's: boolean, smallint, integer, bigint, numeric, timestamp,
date, text.

This project models that core:

- `DbTypes`: the catalog (`GetTypes`) and the compatibility matrix
  (`GetTypeCompatibility`) of the PostgreSQL analyzer.
- `Inference`: the recognizers (`isBoolean`, `isSmallInt`, `isInteger`,
  `isBigInt`) and the first-match walk `inferType`. It has a specification
  function, `InferredPosition`, and a loop method, `InferType`, proved equal to it.
- `FileAnalysis`:
  - `getAnalyzer`.
  - `analyzeFileTypes`, modelled as a method that promotes an `array` of column
    positions in place. It is proved equal to the specification function `Scan`.
- `GoStrings` and `StrConv`: the parts of Go's `strings.TrimSpace`,
  `strings.ToLower`, `strings.Split` and `strconv.ParseInt` that the core relies on.
  They also hold two reference definitions that the program does not call:
  `Join` is the inverse of `Split` in `JoinSplit` and `SplitJoin`, and `FormatInt`
  is the decimal spelling that `ParseFormatRoundTrip` parses back.

`isNumeric`, `isTimestamp` and `isDate` wrap Go's float parser and `time.Parse`.
They are given as parameters, the three fields of `Inference.LibraryParsers`.
Every result about them holds for any choice of the three predicates.

## Model

| member | source | states |
|---|---|---|
| DbTypes.DataType | dbtypes/types.go:3-7 | a candidate column type: its name and its priority, where a lower number means a more specific type |
| DbTypes.TypeAnalyzer | dbtypes/types.go:9-16 | the `TypeAnalyzer` interface closed to its only implementation, `PostgreSQLAnalyzer`; the inference and scan lemmas are stated for any catalog `seq<DataType>`, and the Postgres lemmas for this one |
| DbTypes.TypeAnalyzer.GetTypes | dbtypes/types.go:19-30 | the PostgreSQL catalog has eight entries, and the entry at position i has priority i+1 |
| DbTypes.TypeAnalyzer.GetTypeCompatibility | dbtypes/types.go:33-44 | the compatibility matrix has a key exactly for each catalog type name |
| DbTypes.PostgresTypeNames | dbtypes/types.go:20-29 | the catalog names, in order, are boolean, smallint, integer, bigint, numeric, timestamp, date, text |
| DbTypes.PostgresPrioritiesIncrease | dbtypes/types.go:20-29 | priorities strictly increase along the catalog (a lower number means a more specific type) |
| DbTypes.PostgresNamesDistinct | dbtypes/types.go:20-29 | no type name appears twice in the catalog |
| DbTypes.PostgresCompatibilityKeys | dbtypes/types.go:34-43 | the compatibility matrix has exactly eight keys |
| DbTypes.PostgresCompatibilityEnds | dbtypes/types.go:34-43 | every compatibility list starts with its own key and ends with "text"; text is compatible only with itself |
| DbTypes.PositionOf | dbtypes/types.go:19-30 | computes the first catalog position holding a name, or -1; the result is always -1 or a valid index, and PositionOfFirst states the rest |
| DbTypes.PositionOfFirst | dbtypes/types.go:19-30 | looking up a name in a catalog gives its first position, or -1 exactly when it is absent |
| DbTypes.PositionOfDistinct | dbtypes/types.go:19-30 | in a catalog without duplicate names, looking up the name at position i gives i |
| DbTypes.IncreasingAt | dbtypes/types.go:34-43 | a list whose names sit at strictly increasing catalog positions lists its names in catalog order |
| DbTypes.PostgresCompatibilityOrderedSmallint | dbtypes/types.go:36 | smallint's compatible types come in catalog order, from more to less specific |
| DbTypes.PostgresCompatibilityOrderedIntegerBigint | dbtypes/types.go:37-38 | integer's and bigint's compatible types come in catalog order |
| DbTypes.PostgresCompatibilityOrderedBooleanNumeric | dbtypes/types.go:35-39 | boolean's and numeric's compatible types come in catalog order |
| DbTypes.PostgresCompatibilityOrderedTemporal | dbtypes/types.go:40-42 | timestamp's, date's and text's compatible types come in catalog order |
| GoStrings.IsSpace | main.go:168 | computes whether a character is Unicode White_Space, the set Go's `unicode.IsSpace` uses for `strings.TrimSpace`: tab to carriage return, space, U+0085, U+00A0, U+1680, U+2000 to U+200A, U+2028, U+2029, U+202F, U+205F and U+3000 |
| GoStrings.ToLower | main.go:168 | computes `strings.ToLower` (also used at main.go:23) on ASCII letters: each 'A'..'Z' maps to its lower-case letter and every other character is kept; ToLowerIdempotent states its behaviour |
| GoStrings.TrimLeft | main.go:168 | the result is a suffix of the input, the dropped prefix is all white space, and the result does not start with white space |
| GoStrings.TrimRight | main.go:168 | the result is a prefix of the input, the dropped suffix is all white space, and the result does not end with white space |
| GoStrings.TrimSpace | main.go:168 | the result is a slice of the input with only white space on either side, and it neither starts nor ends with white space |
| GoStrings.TrimSpacePadded | main.go:168 | trimming a word padded with white space gives back the word |
| GoStrings.TrimLeftPadded | main.go:168 | trimming the left of white space followed by a word gives back the word |
| GoStrings.TrimRightPadded | main.go:168 | trimming the right of a word followed by white space gives back the word |
| GoStrings.TrimSpaceSlices | main.go:168 | trimming on the right after trimming on the left leaves a slice of the original with white space on both sides |
| GoStrings.ToLowerIdempotent | main.go:23 | lower-casing twice is lower-casing once |
| GoStrings.Split | main.go:90 | a line splits into one more field than it has delimiters, and no field contains the delimiter |
| GoStrings.JoinSplit | main.go:99 | joining the fields of a split line with the delimiter gives back the line |
| GoStrings.SplitJoin | main.go:99 | splitting the join of a non-empty list of delimiter-free fields (which may themselves be empty) gives back the fields |
| GoStrings.SplitPrefix | main.go:99 | splitting w + t, where w has no delimiter, glues w to the first field of t |
| StrConv.ParseUint | main.go:174-185 | computes the unsigned step of `strconv.ParseInt`: the decimal value of a non-empty run of ASCII digits, nothing otherwise; the width checks are done by ParseInt |
| StrConv.ParseInt | main.go:174-185 | a successful base-10 parse at 16, 32 or 64 bits gives a value within that signed range |
| StrConv.ParseIntExact | main.go:174-185 | ParseInt succeeds exactly on an optionally signed run of decimal digits whose value is within range, and then gives that value |
| StrConv.ParseIntWidens | main.go:174-185 | a parse that succeeds at a narrower width succeeds with the same value at a wider one, and a wider parse succeeds narrowly exactly when its value is in the narrower range |
| StrConv.DecimalValueSnoc | main.go:174-185 | appending a digit to a digit string multiplies its value by ten and adds the digit |
| StrConv.FormatNat | main.go:174-185 | the decimal spelling of a natural number is a non-empty string of digits |
| StrConv.DecimalValueOfFormat | main.go:174-185 | reading back the decimal spelling of a natural number gives the number |
| StrConv.FormatIntLiteral | main.go:174-185 | the decimal spelling of an integer is a literal ParseInt can read, denoting that integer |
| StrConv.ParseFormatRoundTrip | main.go:174-185 | parsing the decimal spelling of n gives n when it fits the width and fails otherwise |
| Inference.IsBoolean | main.go:167-171 | computes `isBoolean`: after trimming white space and lower-casing, the value is "true", "false", "t" or "f"; BooleanIgnoresPaddingAndCase and DecimalLiteralNotBoolean state its behaviour |
| Inference.IsSmallInt | main.go:173-176 | computes `isSmallInt`: a 16-bit ParseInt succeeds and its value is within -32768..32767; IntegerRecognizersExact and IntegerRangesNest state its behaviour |
| Inference.IsInteger | main.go:178-181 | computes `isInteger`: a 32-bit ParseInt succeeds; IntegerRecognizersExact and IntegerRangesNest state its behaviour |
| Inference.IsBigInt | main.go:183-186 | computes `isBigInt`: a 64-bit ParseInt succeeds; IntegerRecognizersExact and IntegerRangesNest state its behaviour |
| Inference.LibraryParsers | main.go:188-225 | stands for `isNumeric`, `isTimestamp` and `isDate` as three arbitrary total predicates on strings; no property of them is assumed |
| Inference.Accepts | main.go:122-162 | only the eight known type names can claim a value, and "text" claims every value |
| Inference.InferFrom | main.go:121-164 | from position i, the walk returns the first entry that claims the value, or the last position when none does |
| Inference.InferredPosition | main.go:118-165 | the first entry that claims the value, and no earlier entry claims it; the last position when none does; -1 for an empty catalog |
| Inference.InferType | main.go:118-165 | the catalog loop with early return computes InferredPosition |
| Inference.BooleanIgnoresPaddingAndCase | main.go:167-171 | a boolean word in any letter case, with white space on either side, is boolean |
| Inference.DecimalLiteralNotBoolean | main.go:169-170 | a signed or unsigned run of digits (such as "1" or "0") is never boolean |
| Inference.DecimalLiteralNotWord | main.go:170 | the lower-cased decimal literal is none of the four boolean words |
| Inference.DecimalLiteralUntrimmed | main.go:168 | trimming leaves a decimal literal unchanged |
| Inference.IntegerRecognizersExact | main.go:173-186 | isSmallInt, isInteger and isBigInt hold exactly for decimal literals within the signed 16-, 32- and 64-bit ranges |
| Inference.IntegerRangesNest | main.go:173-186 | every smallint is an integer, and every integer is a bigint |
| Inference.NumericCasesExclusive | main.go:127-151 | the smallint, integer, bigint and numeric cases never claim the same value |
| Inference.UnknownNamesMatchNothing | main.go:121-164 | when the catalog names no type the switch knows, every value gets the last position |
| Inference.TextBoundsInference | main.go:160-161 | no value is placed after the catalog's first "text" entry |
| Inference.PostgresDispatch | main.go:122-162 | what each of the eight PostgreSQL entries accepts |
| Inference.PostgresClassification | main.go:118-165 | with the PostgreSQL catalog, the position is given by the cascade boolean, smallint, integer, bigint, numeric, timestamp, date, and text for the rest |
| Inference.PostgresTextIsFallback | main.go:160-164 | every PostgreSQL position is within 0..7, and it is 7 exactly when the seven earlier cases all decline the value |
| Inference.PostgresIntegerRanges | main.go:127-144 | a decimal literal within 64 bits is smallint, integer or bigint according to its value alone |
| Inference.PostgresBeyondBigint | main.go:145-151 | a decimal literal outside 64 bits that the float parser accepts is numeric |
| Inference.PostgresBooleanTrue | main.go:167-171 | "true" gets position 0, boolean |
| Inference.PostgresBooleanUpperTrue | main.go:167-171 | "TRUE" gets position 0, boolean |
| Inference.PostgresBooleanFalse | main.go:167-171 | "false" gets position 0, boolean |
| Inference.PostgresBooleanT | main.go:167-171 | "t" gets position 0, boolean |
| Inference.PostgresBooleanF | main.go:167-171 | "f" gets position 0, boolean |
| Inference.PostgresBooleanWord | main.go:167-171 | a boolean word in any letter case gets position 0 |
| Inference.PostgresSmallintOne | main.go:169-176 | "1" is not boolean and gets position 1, smallint |
| Inference.PostgresSmallintZero | main.go:169-176 | "0" is not boolean and gets position 1, smallint |
| Inference.PostgresSmallintMin | main.go:173-176 | "-32768", the least 16-bit value, gets position 1, smallint |
| Inference.PostgresSmallintMax | main.go:173-176 | "32767", the greatest 16-bit value, gets position 1, smallint |
| Inference.PostgresIntegerPastSmallint | main.go:131-137 | "32768" gets position 2, integer |
| Inference.NotBooleanYes | main.go:170 | "yes" is not boolean |
| Inference.PostgresFormattedInteger | main.go:127-144 | the decimal spelling of any 64-bit integer is never boolean, and it is smallint, integer or bigint according to its range |
| FileAnalysis.GetAnalyzer | main.go:22-28 | succeeds, with the PostgreSQL analyzer, exactly when the lower-cased flavour is "postgresql"; otherwise fails with the exact error message |
| FileAnalysis.GetAnalyzerIgnoresCase | main.go:23 | whether a flavour is supported ignores letter case; "PostgreSQL" is accepted and "mysql" refused |
| FileAnalysis.Accepted | main.go:100 | a line is taken into account exactly when it splits into as many fields as the header has |
| FileAnalysis.Zeros | main.go:91-94 | the starting positions are n zeros, the most specific type |
| FileAnalysis.Promote | main.go:100-112 | a line with the wrong field count changes nothing; otherwise no column's position decreases |
| FileAnalysis.Scan | main.go:98-113 | scanning keeps one position per column and never lowers one |
| FileAnalysis.PromoteInPlace | main.go:106-112 | the in-place field loop leaves the array equal to Promote of its old contents |
| FileAnalysis.ScanInPlace | main.go:98-113 | the in-place line loop leaves the array equal to Scan over the lines from its old contents |
| FileAnalysis.AnalyzeFileTypes | main.go:83-116 | empty input gives no headers and no types; otherwise the headers are the split first line, and there is one type per header, equal to Scan from zeros over the remaining lines |
| FileAnalysis.ScanPrefixMonotone | main.go:106-112 | a column's position after a prefix of the lines is at most its final position |
| FileAnalysis.ScanIsColumnMaximum | main.go:98-113 | a column's final position is at least its start and at least the inferred position of its field in every accepted line, and it is one of these values |
| FileAnalysis.ScanSkipsMismatch | main.go:100-103 | a line with the wrong field count leaves the result as if it were absent |
| FileAnalysis.ScanAppend | main.go:98-113 | scanning two runs of lines in turn is scanning their concatenation |
| FileAnalysis.PostgresScanBounds | main.go:78 | with the PostgreSQL catalog every final column position is a valid catalog index, 0..7 |

## Left out

- `main` (lines 31-80) is not modelled. It reads flags, opens the file and prints. Only two of its checks matter to the model. The flavour check is kept as `GetAnalyzer`. The delimiter check at main.go:53 requires a one-byte delimiter, because Go's `len` counts bytes. The model takes any `char`, a superset: a non-ASCII delimiter that `main` refuses with "Delimiter must be a single character" is accepted here, and `analyzeFileTypes` (main.go:99) splits on it in the same way.
- The file is modelled as a sequence of lines. `bufio.Scanner` reading and its 64 KiB line limit are not modelled.
- The warning print for a mismatched line and the debug print for a promotion are left out; they are output only.
- `isNumeric`, `isTimestamp` and `isDate` (main.go:188-225) are not modelled. They call `strconv.ParseFloat` and `time.Parse`, which are not part of this model. They are parameters, the fields of `Inference.LibraryParsers`.
- Inference.InferType: takes the catalog list rather than the analyzer. Go's `inferType` fetches the list with `analyzer.GetTypes()` on every call. That list is constant, and `AnalyzeFileTypes` passes it once.
- GoStrings.ToLower: lower-cases ASCII letters only. Go folds all of Unicode. No non-ASCII character folds into a letter of "true", "false", "t", "f" or "postgresql", so the classification is unchanged. Error messages that echo a non-ASCII flavour are also unaffected, because they use the original string.
- StrConv.ParseInt: returns only success or failure, with no syntax/range error kind. Every caller tests only `err == nil`.
- StrConv.ParseInt: does not model Go's underscore digit separators, because they are accepted only with base 0, and the source always passes base 10.
- Strings are sequences of Unicode characters. Invalid UTF-8 bytes in the input are not modelled.
- The `DataType` struct duplicated in main.go:15-19 is unused there; only `dbtypes.DataType` is modelled.
- The source skips a line whose field count differs from the header's, and so does the model. The package's tests exercise features that main.go does not have, so none is modelled:
  - a quote-aware `splitFields` (main_test.go:317);
  - an `ncols` argument to `analyzeFileTypes` and its "header line has 8 fields, expected 5" error (main_test.go:123, main_test.go:133);
  - a `varchar` type with maximum lengths (main_test.go:39, main_test.go:154-179);
  - a fatal error on a line with the wrong field count (main_test.go:202-211), where main.go:100-103 skips the line.
- Inference.PostgresFormattedInteger: the concrete 19-digit bigint literal "9223372036854775807" is not stated as an example of its own. PostgresFormattedInteger covers it along with every other 64-bit value.
