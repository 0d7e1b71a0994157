# Freeze definitions, an evictor file-system directory and a casino bet, in Dafny

This project models three sequential cores of the Ice distribution and proves properties of them.

- **The front end of `slice2freezej`**, the generator of Freeze maps and evictor indices for Java:
  - parsing of the `--dict NAME,KEY,VALUE`, `--index NAME,TYPE,MEMBER[,case]` and `--dict-index DICT[,MEMBER][,case]` option strings;
  - attaching each dict-index to its dictionary, with `DictIndex` equality on the member only;
  - the checks `generate(Dict)` and `generate(Index)` make before they emit any Java;
  - the helpers that box and unbox values, name the generated class and capitalise member names;
  - the rule for which encodings are encapsulated.
- **`DirectoryI`** of the evictor file-system demo: a node table plus a destroyed flag. It is a Dafny class whose methods update the table in place.
- **`BetI`** of the casino demo: the list of potential winners, the chips in play, and the winner drawn by `complete`. Java's 32-bit `int` arithmetic is written out explicitly.

Files:

- `wrappers.dfy`: `Option`, `Result` and `Outcome`.
- `collect.dfy`: the generic "check every element, stop at the first failure" fold that every checking loop instantiates.
- `slice_types.dfy`: the part of the Slice type system the front end consults.
- `java_names.dfy`: the name and expression helpers.
- `freeze_options.dfy`: the option loops.
- `freeze_generator.dfy`: the generator's checks.
- `directory.dfy`: the directory class.
- `bet.dfy`: the bet class.

Each loop of the source is a method with a `while` or `for` loop, proved equal to a specification function. What the function means is stated in its own postconditions or in lemmas about it. Where the source accepts or refuses an input, the model states both directions: when each refusal happens, and that an input meeting none of them is accepted.

## Model

| member | source | states |
|---|---|---|
| Collect.CollectAllMeaning | cpp/src/slice2freezej/Main.cpp:1548-1602 | A checking loop accepts all its inputs exactly when each is accepted, yielding one result per input in order; otherwise it reports the error of the first input refused. |
| SliceTypes.LookupType | cpp/src/slice2freezej/Main.cpp:282-298 | A name resolves to nothing exactly when it is neither a builtin keyword nor a type of the unit; a keyword resolves to its builtin. |
| SliceTypes.LegalKeyType | cpp/src/slice2freezej/Main.cpp:324-329 | Classes, proxies and dictionaries are never legal key types, and a sequence always raises the sequence flag. |
| SliceTypes.DeprecationFlagExact | cpp/src/slice2freezej/Main.cpp:324-334 | For a legal key type, the sequence flag of legalKeyType is raised exactly when a sequence occurs in the type, so the deprecation warning is neither missed nor spurious. |
| SliceTypes.FirstNamed | cpp/src/slice2freezej/Main.cpp:377-388 | The member scan finds a member exactly when one has the name, and then the first one. |
| JavaNames.TypeToObjectStringAsWritten | cpp/src/slice2freezej/Main.cpp:125-151 | A user type maps to its Java name; a builtin maps to its table entry, and a missing entry is reported as None. |
| JavaNames.ValueKindReadsPastTable | cpp/src/slice2freezej/Main.cpp:128-146 | The eleven-entry table has an entry for every builtin kind except `Value`. |
| JavaNames.TypeToObjectString | cpp/src/slice2freezej/Main.cpp:125-151 | The boxed Java type of every type. It agrees with the source's table wherever the table has an entry. |
| JavaNames.VarToObject | cpp/src/slice2freezej/Main.cpp:154-208 | A primitive is boxed with `valueOf` of its boxed type; every other type is left as it is. |
| JavaNames.ObjectToVar | cpp/src/slice2freezej/Main.cpp:210-264 | A primitive is unboxed with its `<primitive>Value()` method; every other type is left as it is. |
| JavaNames.BoxingMatchesUnboxing | cpp/src/slice2freezej/Main.cpp:154-264 | Boxing and unboxing change an expression exactly for the primitive types, and for the same types. |
| JavaNames.LastIndexOf | cpp/src/slice2freezej/Main.cpp:272 | `rfind('.')`: none exactly when there is no dot; otherwise a dot with no dot after it. |
| JavaNames.ShortName | cpp/src/slice2freezej/Main.cpp:271-280 | The class name is the suffix after the last dot, or the whole name without a dot; it holds no dot. |
| JavaNames.ShortNameOfQualified | cpp/src/slice2freezej/Main.cpp:268-280 | A package-qualified name yields its unqualified part. |
| JavaNames.Capitalize | cpp/src/slice2freezej/Main.cpp:427-429 | The capitalised member has the same length and differs only in its first character, which is upper-cased. |
| FreezeOptions.EqualityOperators | cpp/src/slice2freezej/Main.cpp:63-71 | `!=` is the negation of `==`. `==` is an equivalence that ignores case sensitivity. |
| FreezeOptions.RemoveWhitespace | cpp/src/slice2freezej/Main.cpp:1551 | The result holds no white space, is no longer than the input, and equals an input that holds none. |
| FreezeOptions.RemoveWhitespaceFilters | cpp/src/slice2freezej/Main.cpp:1551 | Removal is a filter: it distributes over concatenation, drops each white-space character and keeps each other one, so the remaining characters stay in order. |
| FreezeOptions.FindComma | cpp/src/slice2freezej/Main.cpp:1556 | `find(',')`: none exactly when there is no comma; otherwise a comma with none before it. |
| FreezeOptions.Split | cpp/src/slice2freezej/Main.cpp:1556-1568 | A string with a comma is the text before the first comma, the comma, and the text `erase` leaves. |
| FreezeOptions.BeforeAfterOf | cpp/src/slice2freezej/Main.cpp:1556-1568 | Cutting `head,tail` with a comma-free head gives back exactly `head` and `tail`. |
| FreezeOptions.BeforeAfterAt | cpp/src/slice2freezej/Main.cpp:1556-1561 | `substr(0, pos)` and `erase(0, pos + 1)` at the found comma are the two sides of the cut. |
| FreezeOptions.DictOf | cpp/src/slice2freezej/Main.cpp:1551-1599 | The checks in source order, each quoting the option: no name when the text before the first comma is empty, then no key, then no value. When none applies, the dictionary has exactly those three fields and no indices. |
| FreezeOptions.DictOfAccepted | cpp/src/slice2freezej/Main.cpp:1551-1568 | An accepted string, without its white space, is `name,key,value` with a comma-free name and key. |
| FreezeOptions.DictRoundTrip | cpp/src/slice2freezej/Main.cpp:1551-1599 | Every dictionary with non-empty, comma-free name and key and a non-empty value is defined by its own option string. |
| FreezeOptions.ParseDict | cpp/src/slice2freezej/Main.cpp:1551-1601 | One turn of the `--dict` loop computes exactly DictOf. |
| FreezeOptions.ParseDictOptions | cpp/src/slice2freezej/Main.cpp:1547-1602 | The `--dict` loop is the fold of DictOf over the options, stopping at the first refusal. |
| FreezeOptions.IndexOptionOf | cpp/src/slice2freezej/Main.cpp:1608-1679 | A refusal quotes the option and is one of no name, no type, no member or a bad case word. An accepted index has a non-empty name, type and member. |
| FreezeOptions.CheckIndex | cpp/src/slice2freezej/Main.cpp:1638-1680 | The checks in source order, each with its reason: no name, then no type, then no member, then a case word other than the two allowed. When none applies, the index is accepted, case-sensitive exactly when the word is `case-sensitive`. |
| FreezeOptions.IndexOptionAccepted | cpp/src/slice2freezej/Main.cpp:1614-1635 | An accepted string is `name,type,member,word` with an allowed word, or `name,type,member` and case-sensitive. |
| FreezeOptions.IndexRoundTrip | cpp/src/slice2freezej/Main.cpp:1608-1679 | Every well-formed index is defined by its string, with its case word or, when case-sensitive, without one. |
| FreezeOptions.IndexBadCaseRefused | cpp/src/slice2freezej/Main.cpp:1670-1679 | A case word other than the two allowed is refused as a bad case. |
| FreezeOptions.ParseIndex | cpp/src/slice2freezej/Main.cpp:1608-1681 | One turn of the `--index` loop computes exactly IndexOptionOf. |
| FreezeOptions.ParseIndexOptions | cpp/src/slice2freezej/Main.cpp:1604-1682 | The `--index` loop is the fold of IndexOptionOf over the options, stopping at the first refusal. |
| FreezeOptions.DictIndexOf | cpp/src/slice2freezej/Main.cpp:1690-1745 | A refusal quotes the option and is either no dictionary or a bad case word. No dictionary is reported exactly when the string, without white space, is empty or starts with a comma. An accepted dict-index names a non-empty, comma-free dictionary. |
| FreezeOptions.DictIndexNameOnly | cpp/src/slice2freezej/Main.cpp:1719-1722 | A name alone indexes the whole value, case-sensitively. |
| FreezeOptions.DictIndexOneField | cpp/src/slice2freezej/Main.cpp:1706-1716 | A single field is the case word if it is one of the two allowed words, and the member otherwise. |
| FreezeOptions.DictIndexTwoFields | cpp/src/slice2freezej/Main.cpp:1698-1705 | Two fields are the member and the case word; a case word outside the two allowed is refused. |
| FreezeOptions.ParseDictIndex | cpp/src/slice2freezej/Main.cpp:1690-1745 | Parsing one `--dict-index` string computes exactly DictIndexOf. |
| FreezeOptions.Occurs | cpp/src/slice2freezej/Main.cpp:1753 | `std::find` finds an index exactly when an attached index is `==` to it. |
| FreezeOptions.FirstDictNamed | cpp/src/slice2freezej/Main.cpp:1749-1751 | The first dictionary with the name, or none exactly when no dictionary has it. |
| FreezeOptions.Attach | cpp/src/slice2freezej/Main.cpp:1747-1773 | Unknown dictionary exactly when no dictionary has the name. Defined twice exactly when the first dictionary of that name already has an equal index. Accepted exactly when it has none, and then the index is appended to that dictionary alone. |
| FreezeOptions.AttachKeepsDefinitions | cpp/src/slice2freezej/Main.cpp:1748-1762 | Attaching changes no name, key or value, and changes only the indices of the dictionary named. |
| FreezeOptions.AttachTwiceRefused | cpp/src/slice2freezej/Main.cpp:1753-1758 | After an index is attached, the same member with the other case sensitivity is refused as defined twice. |
| FreezeOptions.AttachAllKeepsDefinitions | cpp/src/slice2freezej/Main.cpp:1684-1775 | The whole `--dict-index` loop keeps every dictionary's definition and only extends index lists. |
| FreezeOptions.AttachOne | cpp/src/slice2freezej/Main.cpp:1748-1773 | The dictionary scan computes exactly Attach. |
| FreezeOptions.AttachDictIndexOptions | cpp/src/slice2freezej/Main.cpp:1684-1775 | The `--dict-index` loop is the fold of parse-then-attach over the options, stopping at the first refusal. |
| FreezeGenerator.FindDataMember | cpp/src/slice2freezej/Main.cpp:377-388 | The member scan returns the position of the first data member with the name, or none. |
| FreezeGenerator.IndexEntryOf | cpp/src/slice2freezej/Main.cpp:306-431 | An accepted index indexes a legal key type, named "value" or the member. It is flagged deprecated exactly when legalKeyType raised the sequence flag, and is a string when case-insensitive. |
| FreezeGenerator.WholeValueIndexAlone | cpp/src/slice2freezej/Main.cpp:311-322 | A whole-value index is refused whenever the map has more than one index. |
| FreezeGenerator.WholeValueIndexAccepted | cpp/src/slice2freezej/Main.cpp:324-353 | A lone whole-value index is accepted exactly when the value type is legal and, if case-insensitive, a string. An illegal value type is refused as not a valid index type, and a non-string as not a string. |
| FreezeGenerator.MemberIndexSelectsFirst | cpp/src/slice2freezej/Main.cpp:357-430 | A value that is neither a class nor a struct is refused, and so is one without such a member. Otherwise the index uses the first member of that name. |
| FreezeGenerator.MemberIndexAccepted | cpp/src/slice2freezej/Main.cpp:397-430 | A member index whose class or struct has the member is accepted exactly when the first such member has a legal key type and, if the index is case-insensitive, is a string. An illegal type is refused as not an index key, and a non-string as not a string. |
| FreezeGenerator.CapitalizedMemberName | cpp/src/slice2freezej/Main.cpp:426-429 | An accepted member index's capitalised name differs from the member only in its upper-cased first character. |
| FreezeGenerator.DictPlanOf | cpp/src/slice2freezej/Main.cpp:267-432 | An accepted map is named by ShortName of its name, and its key and value types are the lookups of its key and value. |
| FreezeGenerator.DictPlanMeaning | cpp/src/slice2freezej/Main.cpp:282-432 | A map is accepted exactly when key and value resolve and every index is accepted, and its entries are its indices' entries, in order. An unknown key, then an unknown value, is refused as not a valid type. Otherwise a refusal is the error of the first index refused. |
| FreezeGenerator.CheckIndices | cpp/src/slice2freezej/Main.cpp:306-432 | The index loop computes exactly the fold of IndexEntryOf. |
| FreezeGenerator.ValidateDict | cpp/src/slice2freezej/Main.cpp:267-432 | The validation prefix of generate(Dict) computes exactly DictPlanOf. |
| FreezeGenerator.IndexPlanOf | cpp/src/slice2freezej/Main.cpp:1266-1330 | An accepted evictor index is named by ShortName of its name and indexes a class, with a string member when case-insensitive. An unknown type is refused as not a valid type. |
| FreezeGenerator.IndexPlanMeaning | cpp/src/slice2freezej/Main.cpp:1279-1330 | Accepted exactly when the type is a class with the member, string-typed if case-insensitive, and then the first member of the name is used. A type that is not a class, a missing member, and a non-string member for a case-insensitive index are each refused with their own error. |
| FreezeGenerator.EvictorIndexSkipsKeyLegality | cpp/src/slice2freezej/Main.cpp:1288-1330 | An evictor index on a `double` member is accepted, while a map index on it is refused as not an index key. |
| FreezeGenerator.ValidateIndex | cpp/src/slice2freezej/Main.cpp:1266-1330 | The validation prefix of generate(Index) computes exactly IndexPlanOf. |
| FreezeGenerator.IndexKeyEncoding | cpp/src/slice2freezej/Main.cpp:1036-1067 | A whole-value index key is encoded like the value, with an encapsulation. A member index key is encoded like a key, without one. Only member keys of primitive type are unboxed. |
| Filesystem.Directory.constructor | demos/java-compat/Manual/evictorFilesystem/DirectoryI.java:11-16 | A new directory is not destroyed and holds no nodes. |
| Filesystem.Directory.Name | demos/java-compat/Manual/evictorFilesystem/DirectoryI.java:18-28 | Object-not-exist once destroyed, the node name otherwise. |
| Filesystem.Directory.Destroy | demos/java-compat/Manual/evictorFilesystem/DirectoryI.java:30-58 | Refuses the root, then a destroyed directory, then a non-empty one. Otherwise it marks the directory destroyed and the parent drops exactly its entry; a refusal changes nothing. |
| Filesystem.DestroyTwice | demos/java-compat/Manual/evictorFilesystem/DirectoryI.java:30-58 | A second destroy of a directory that a first destroy removed from its parent is refused as object-not-exist, and the parent keeps the first call's table. |
| Filesystem.Directory.List | demos/java-compat/Manual/evictorFilesystem/DirectoryI.java:60-77 | Object-not-exist once destroyed. Otherwise a fresh array as long as the table, holding every node once and nothing else. |
| Filesystem.Directory.CopyNodes | demos/java-compat/Manual/evictorFilesystem/DirectoryI.java:69-75 | The copying loop fills a fresh array of the table's size; every position holds the entry of a distinct key of the table, and every key is copied. |
| Filesystem.Directory.Find | demos/java-compat/Manual/evictorFilesystem/DirectoryI.java:79-95 | Object-not-exist once destroyed, no-such-name for an absent name, the stored entry otherwise. |
| Filesystem.Directory.AddNode | demos/java-compat/Manual/evictorFilesystem/DirectoryI.java:97-155 | The shared body of the two creates: the refusals leave the table unchanged, and a success adds exactly one entry. |
| Filesystem.Directory.CreateDirectory | demos/java-compat/Manual/evictorFilesystem/DirectoryI.java:97-125 | Object-not-exist once destroyed. Name-in-use for an empty or taken name, leaving the table unchanged. Otherwise exactly one new `DirType` entry under the name. |
| Filesystem.Directory.CreateFile | demos/java-compat/Manual/evictorFilesystem/DirectoryI.java:127-155 | As CreateDirectory, with a `FileType` entry. |
| Filesystem.Directory.RemoveNode | demos/java-compat/Manual/evictorFilesystem/DirectoryI.java:157-163 | Requires the name to be present and removes exactly that key. |
| Filesystem.CreateFindRemove | demos/java-compat/Manual/evictorFilesystem/DirectoryI.java:79-163 | A node created in a live directory is found under its name, and removing it restores the table. |
| Casino.Wrap32 | demos/java-compat/Freeze/casino/BetI.java:43 | The Java `int` a result wraps to: within range, the value itself when it fits, and congruent modulo 2^32. |
| Casino.JavaRem | demos/java-compat/Freeze/casino/BetI.java:67 | Java's `%`: the result has the sign of the dividend, is smaller in magnitude than the divisor, and with the truncating quotient gives back the dividend, `(a / b) * b + a % b == a`. |
| Casino.ChipsFor | demos/java-compat/Freeze/casino/BetI.java:43 | The chips in play are a Java `int`, equal to stake times winners whenever that product fits. |
| Casino.ChipsGrowByStake | demos/java-compat/Freeze/casino/BetI.java:21-44 | Each accepted player adds one stake to the chips in play, modulo 2^32. |
| Casino.WinnerIndexAsWritten | demos/java-compat/Freeze/casino/BetI.java:57-74 | The draw as written never yields an index past the last winner. |
| Casino.MinValueDrawFails | demos/java-compat/Freeze/casino/BetI.java:57-74 | As written, a draw of Integer.MIN_VALUE with one winner and a bank edge of 3 yields index -2, out of bounds. |
| Casino.WinnerIndex | demos/java-compat/Freeze/casino/BetI.java:57-72 | The corrected draw divides by zero exactly when size + bankEdge is 1. Otherwise, with at least one winner, it yields a valid position. |
| Casino.WinnerIndexInRange | demos/java-compat/Freeze/casino/BetI.java:57-74 | With at least one winner, the index is always a valid position. It fails only when size + bankEdge is 1, never when bankEdge is at least 1. |
| Casino.EveryWinnerReachable | demos/java-compat/Freeze/casino/BetI.java:67-72 | A draw below the number of winners picks that winner. |
| Casino.EdgeGoesToBank | demos/java-compat/Freeze/casino/BetI.java:67-72 | Draws from size up to size + bankEdge - 2 go to the bank. |
| Casino.WinnerIndexAgrees | demos/java-compat/Freeze/casino/BetI.java:57-72 | The corrected draw equals the source's wherever the source's `int` arithmetic does not overflow. |
| Casino.Bet.constructor | demos/java-compat/Freeze/casino/BetI.java:99-107 | A new bet stores its arguments and has the bank as its only potential winner. |
| Casino.Bet.Init | demos/java-compat/Freeze/casino/BetI.java:109-114 | Sets the evictor and the bank edge and modifies nothing else. |
| Casino.Bet.Accept | demos/java-compat/Freeze/casino/BetI.java:16-37 | A null player or a failed withdrawal is out of chips, leaving the winners unchanged. Otherwise the player is appended at the end and the chips grow by one stake. |
| Casino.Bet.ChipsInPlay | demos/java-compat/Freeze/casino/BetI.java:39-44 | The chips in play are ChipsFor(stake, number of potential winners). |
| Casino.Bet.Complete | demos/java-compat/Freeze/casino/BetI.java:53-93 | Pays stake times winners, as an `int`, to the winner at the drawn index, a valid position, or to the bank when that winner is gone. Division by zero exactly when the draw's range is 0. |

## Left out

- Java code emission by `generate` (the `out << …` text), the preprocessor, Slice parsing, dependency output, the file tracker, the Ctrl-C handler and its mutex: these are text templating, I/O and concurrency.
- `Unit::lookupType`, `Dictionary::legalKeyType` and `IceUtilInternal::removeWhitespace` are library code and not part of this model. The functions in `slice_types.dfy` and `RemoveWhitespace` are models of them: a map from names to types, the legal-key rule of the Slice language, and a filter of C-locale white space.
- The Java name of a user-defined type (`typeToString`) is carried by the type as `javaName`; how the Java mapping derives it is not modelled.
- A class whose definition is missing (`classDecl->definition()` is null for a forward-declared class) is not modelled: every `Class` carries its members.
- The warnings and error messages are modelled by the flag `deprecatedSequence` and by the error datatypes, not as console text. The usage text printed when not validating is left out.
- FreezeOptions.IndexOptionOf, FreezeOptions.DictOf, FreezeOptions.DictIndexOf: strings are sequences of Unicode characters, not bytes; `removeWhitespace` is modelled with the six ASCII white-space characters.
- Filesystem.Directory: `synchronized` locking, the evictor (`_evictor.add`/`remove`), proxy creation and UUID generation are left out; the new node's identity is a parameter, and the new servant object is not modelled.
- Filesystem.Directory.Destroy: the parent is reached through a proxy in the source; the model passes the parent object. It requires that the parent lists the directory under its name only on the path that reaches the parent (a live, empty, non-root directory); the refusals need nothing of the parent.
- Filesystem.Directory.List: the order of the array is the map's iteration order, modelled by an arbitrary choice of key at each step.
- Casino.Bet: the remote `withdraw` and `win` calls and `_evictor.remove` are left out. Whether the withdrawal succeeded and whether the winner still exists are boolean parameters.
- Casino.Bet: the argument-less Java constructor, used by Freeze when it reloads a bet, and the accessors `getAmount` and `getCloseTime` are not modelled.
- Casino.Bet.Accept: requires fewer than Integer.MAX_VALUE potential winners, because a Java `Vector` cannot grow past that.
- Casino.Bet.Complete: uses the corrected winner index (see Findings). It also computes `size + (bankEdge - 1)` without 32-bit wrap-around, which differs from the source only when the sum overflows an `int` (Casino.WinnerIndexAgrees).

## Findings

| source | as written | input that shows it | evidently intended | confidence | as-written member | corrected member |
|---|---|---|---|---|---|---|
| cpp/src/slice2freezej/Main.cpp:128-146 | `builtinTable` has 11 entries and is indexed by the builtin kind; the kind `Value`, the twelfth, is handled by the switches of `varToObject`/`objectToVar` but has no table entry | a dictionary whose value type is `Value`: `builtinTable[11]` reads past the end of the array | `Value` boxes as `Ice.Object`, as the Java mapping has it | medium (the enum order is defined in Ice's Slice/Parser.h, outside this repository), not executed | JavaNames.ValueKindReadsPastTable | JavaNames.TypeToObjectString |
| demos/java-compat/Freeze/casino/BetI.java:57-72 | `random = -random` on an `int` leaves Integer.MIN_VALUE negative, so `random % (…)` is negative and `elementAt` throws | `random` = -2147483648, one potential winner, bank edge 3: the index is -2 | the index is always a valid position: negate without overflow | high, not executed | Casino.MinValueDrawFails | Casino.WinnerIndexInRange |
