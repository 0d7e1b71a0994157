/** The Freeze definitions given on the command line of the Java Freeze
    generator: `--dict NAME,KEY,VALUE`, `--index NAME,TYPE,MEMBER[,case]`
    and `--dict-index DICT[,MEMBER][,case]`. Each option string has its
    whitespace removed and is then split at the first comma, again and
    again; a dict-index is attached to the dictionary of the same name. */
module FreezeOptions {
  import opened Wrappers
  import opened Collect

  /** An index of a dictionary: an empty member indexes the whole value. */
  datatype DictIndex = DictIndex(member: string, caseSensitive: bool)

  /** A dictionary definition and the indices attached to it. */
  datatype Dict = Dict(name: string, key: string, value: string, indices: seq<DictIndex>)

  /** An evictor index definition. */
  datatype Index = Index(name: string, typeName: string, member: string, caseSensitive: bool)

  /** A parsed `--dict-index`: the dictionary it names and the index. */
  datatype DictIndexOption = DictIndexOption(dictName: string, index: DictIndex)

  /** Why an option string was refused. */
  datatype Reason =
    | NoName | NoKey | NoValue | NoType | NoMember | BadCase
    | NoDictionary | DefinedTwice | UnknownDictionary

  /** The refused option string, as the user wrote it, and the reason. */
  datatype OptionError = OptionError(arg: string, reason: Reason)

  /** DictIndex::operator==: two indices are the same index when they
      index the same member, whatever their case sensitivity. */
  predicate Equals(a: DictIndex, b: DictIndex)
  {
    a.member == b.member
  }

  /** DictIndex::operator!=. */
  predicate NotEquals(a: DictIndex, b: DictIndex)
  {
    a.member != b.member
  }

  /** The two operators are each other's negation, and equality is an
      equivalence that ignores case sensitivity. */
  lemma EqualityOperators(a: DictIndex, b: DictIndex, c: DictIndex)
    ensures NotEquals(a, b) <==> !Equals(a, b)
    ensures Equals(a, a) && (Equals(a, b) ==> Equals(b, a))
    ensures Equals(a, b) && Equals(b, c) ==> Equals(a, c)
    ensures Equals(a, a.(caseSensitive := !a.caseSensitive))
  {
  }

  /** isspace in the "C" locale. */
  predicate IsSpace(c: char)
  {
    c == ' ' || c == '\t' || c == '\n' || c == '\U{0B}' || c == '\U{0C}' || c == '\r'
  }

  predicate NoSpace(s: string)
  {
    forall i :: 0 <= i < |s| ==> !IsSpace(s[i])
  }

  /** IceUtilInternal::removeWhitespace: the characters of `s` that are not
      white space, in order. */
  function RemoveWhitespace(s: string): (r: string)
    ensures NoSpace(r)
    ensures NoSpace(s) ==> r == s
    ensures |r| <= |s|
  {
    if s == [] then []
    else
      var rest := RemoveWhitespace(s[1..]);
      if IsSpace(s[0]) then rest else [s[0]] + rest
  }

  /** Removing white space is a filter: it works piece by piece, drops a
      white-space character and keeps any other one, so every other
      character of the string is kept, in order. */
  lemma {:induction false} RemoveWhitespaceFilters(a: string, b: string, c: char)
    ensures RemoveWhitespace(a + b) == RemoveWhitespace(a) + RemoveWhitespace(b)
    ensures RemoveWhitespace([c]) == if IsSpace(c) then [] else [c]
    decreases |a|
  {
    if a == [] {
      assert a + b == b;
    } else {
      assert (a + b)[0] == a[0] && (a + b)[1..] == a[1..] + b;
      RemoveWhitespaceFilters(a[1..], b, c);
    }
  }

  /** string::find(','): the position of the first comma. */
  function FindComma(s: string): (r: Option<nat>)
    ensures r.None? <==> ',' !in s
    ensures r.Some? ==> r.value < |s| && s[r.value] == ',' && ',' !in s[..r.value]
  {
    if s == [] then None
    else if s[0] == ',' then Some(0)
    else match FindComma(s[1..])
      case None => None
      case Some(p) =>
        assert s[..p + 1] == [s[0]] + s[1..][..p];
        Some(p + 1)
  }

  /** The text before the first comma, or nothing when there is none:
      what `if(pos != npos) x = s.substr(0, pos)` leaves in an empty x. */
  function Before(s: string): (r: string)
    ensures ',' !in r
    ensures ',' !in s ==> r == []
  {
    match FindComma(s)
    case Some(p) => s[..p]
    case None => []
  }

  /** What is left of `s` after `s.erase(0, pos + 1)`, or all of `s` when
      there is no comma. */
  function After(s: string): (r: string)
    ensures ',' !in s ==> r == s
  {
    match FindComma(s)
    case Some(p) => s[p + 1..]
    case None => s
  }

  /** A string with a comma is the text before it, the comma and the text
      after it. */
  lemma Split(s: string)
    requires ',' in s
    ensures s == Before(s) + "," + After(s)
  {
    var p := FindComma(s).value;
    assert s == s[..p] + "," + s[p + 1..];
  }

  /** The split at the first comma is unique: a comma-free head is cut off
      exactly. */
  lemma {:induction false} BeforeAfterOf(head: string, tail: string)
    requires ',' !in head
    ensures Before(head + "," + tail) == head && After(head + "," + tail) == tail
  {
    var s := head + "," + tail;
    assert s[|head|] == ',';
    var p := FindComma(s).value;
    assert s[..p] == head;
    assert s[p + 1..] == tail;
  }

  /** Before and After are the two sides of the comma string::find
      reports. */
  lemma BeforeAfterAt(s: string, p: nat)
    requires FindComma(s) == Some(p)
    ensures Before(s) == s[..p] && After(s) == s[p + 1..]
  {
  }

  /** The two case words differ. */
  lemma CaseWordsDiffer()
    ensures CaseSensitiveWord != CaseInsensitiveWord
  {
    assert CaseSensitiveWord[5] != CaseInsensitiveWord[5];
  }

  // ----- --dict NAME,KEY,VALUE -----

  /** The option string a dictionary definition is given by. */
  function DictText(d: Dict): string
  {
    d.name + "," + (d.key + "," + d.value)
  }

  /** What one `--dict` string defines: the name is the text before the
      first comma, the key the text up to the second, the value the rest;
      a missing name, key or value is refused, in that order. */
  function DictOf(arg: string): (r: Result<Dict, OptionError>)
    ensures r.Failure? ==> r.error.arg == arg && r.error.reason in {NoName, NoKey, NoValue}
    ensures r.Success? ==> r.value.name != [] && r.value.key != [] && r.value.value != []
    ensures r.Success? ==> r.value.indices == []
    ensures var s := RemoveWhitespace(arg);
      Before(s) == [] ==> r == Failure(OptionError(arg, NoName))
    ensures var s := RemoveWhitespace(arg);
      Before(s) != [] && Before(After(s)) == [] ==> r == Failure(OptionError(arg, NoKey))
    ensures var s := RemoveWhitespace(arg);
      Before(s) != [] && Before(After(s)) != [] && After(After(s)) == [] ==>
        r == Failure(OptionError(arg, NoValue))
    ensures var s := RemoveWhitespace(arg);
      Before(s) != [] && Before(After(s)) != [] && After(After(s)) != [] ==>
        r == Success(Dict(Before(s), Before(After(s)), After(After(s)), []))
  {
    var s := RemoveWhitespace(arg);
    var name := Before(s);
    var key := Before(After(s));
    var value := After(After(s));
    if name == [] then Failure(OptionError(arg, NoName))
    else if key == [] then Failure(OptionError(arg, NoKey))
    else if value == [] then Failure(OptionError(arg, NoValue))
    else Success(Dict(name, key, value, []))
  }

  /** An accepted `--dict` string is exactly the text of the dictionary it
      defines, once white space is removed, and the name and key hold no
      comma. */
  lemma DictOfAccepted(arg: string)
    requires DictOf(arg).Success?
    ensures var d := DictOf(arg).value;
      ',' !in d.name && ',' !in d.key && DictText(d) == RemoveWhitespace(arg)
  {
    var s := RemoveWhitespace(arg);
    var d := DictOf(arg).value;
    var rest := After(s);
    Split(s);
    Split(rest);
  }

  /** Every dictionary with a non-empty name, key and value, whose name and
      key hold no comma and which holds no white space, is defined by its
      option string. With DictOf's postconditions this says that the
      accepted strings are exactly these. */
  lemma DictRoundTrip(d: Dict)
    requires d.name != [] && d.key != [] && d.value != [] && d.indices == []
    requires ',' !in d.name && ',' !in d.key
    requires NoSpace(DictText(d))
    ensures DictOf(DictText(d)) == Success(d)
  {
    BeforeAfterOf(d.name, d.key + "," + d.value);
    BeforeAfterOf(d.key, d.value);
  }

  /** One turn of the `--dict` loop: find the comma, take the name and
      erase it with its comma, then the same for the key; the value is
      what is left. */
  method ParseDict(arg: string) returns (r: Result<Dict, OptionError>)
    ensures r == DictOf(arg)
  {
    var s := RemoveWhitespace(arg);
    ghost var s0 := s;
    var dict := Dict("", "", "", []);
    var pos := FindComma(s);
    if pos.Some? {
      BeforeAfterAt(s, pos.value);
      dict := dict.(name := s[..pos.value]);
      s := s[pos.value + 1..];
    }
    assert dict.name == Before(s0) && s == After(s0);
    ghost var s1 := s;
    pos := FindComma(s);
    if pos.Some? {
      BeforeAfterAt(s, pos.value);
      dict := dict.(key := s[..pos.value]);
      s := s[pos.value + 1..];
    }
    assert dict.key == Before(s1) && s == After(s1);
    dict := dict.(value := s);

    if dict.name == [] {
      return Failure(OptionError(arg, NoName));
    }
    if dict.key == [] {
      return Failure(OptionError(arg, NoKey));
    }
    if dict.value == [] {
      return Failure(OptionError(arg, NoValue));
    }
    return Success(dict);
  }

  /** The `--dict` loop: every option string in turn, stopping at the
      first one refused. */
  method ParseDictOptions(args: seq<string>) returns (r: Result<seq<Dict>, OptionError>)
    ensures r == CollectAll(DictOf, [], args)
  {
    var dicts: seq<Dict> := [];
    for n := 0 to |args|
      invariant CollectAll(DictOf, [], args) == CollectAll(DictOf, dicts, args[n..])
    {
      assert args[n..][0] == args[n] && args[n..][1..] == args[n + 1..];
      var x := ParseDict(args[n]);
      if x.Failure? {
        return Failure(x.error);
      }
      dicts := dicts + [x.value];
    }
    assert args[|args|..] == [];
    return Success(dicts);
  }

  // ----- --index NAME,TYPE,MEMBER[,case] -----

  const CaseSensitiveWord: string := "case-sensitive"
  const CaseInsensitiveWord: string := "case-insensitive"

  function CaseWord(caseSensitive: bool): string
  {
    if caseSensitive then CaseSensitiveWord else CaseInsensitiveWord
  }

  /** The option string of an index, with or without its case word. */
  function IndexText(ix: Index, withCase: bool): string
  {
    if withCase then ix.name + "," + (ix.typeName + "," + (ix.member + "," + CaseWord(ix.caseSensitive)))
    else ix.name + "," + (ix.typeName + "," + ix.member)
  }

  /** What one `--index` string defines: name, type and member are cut off
      at successive commas, and what follows a third comma is the case
      word, which defaults to case-sensitive. A missing name, type or
      member, or a case word other than the two allowed, is refused. */
  function IndexOptionOf(arg: string): (r: Result<Index, OptionError>)
    ensures r.Failure? ==> r.error.arg == arg && r.error.reason in {NoName, NoType, NoMember, BadCase}
    ensures r.Success? ==> r.value.name != [] && r.value.typeName != [] && r.value.member != []
  {
    var s := RemoveWhitespace(arg);
    var rest := After(After(s));
    CheckIndex(arg, Before(s), Before(After(s)), MemberField(rest), CaseField(rest))
  }

  /** The member: the text after the second comma, up to a third. */
  function MemberField(rest: string): string
  {
    if ',' in rest then Before(rest) else rest
  }

  /** The case word: the text after a third comma, or case-sensitive. */
  function CaseField(rest: string): string
  {
    if ',' in rest then After(rest) else CaseSensitiveWord
  }

  /** The checks of the `--index` loop on the fields cut from one string,
      in the order the loop makes them. */
  function CheckIndex(arg: string, name: string, typeName: string, member: string, caseString: string)
    : (r: Result<Index, OptionError>)
    ensures name == [] ==> r == Failure(OptionError(arg, NoName))
    ensures name != [] && typeName == [] ==> r == Failure(OptionError(arg, NoType))
    ensures name != [] && typeName != [] && member == [] ==> r == Failure(OptionError(arg, NoMember))
    ensures name != [] && typeName != [] && member != [] &&
            caseString != CaseSensitiveWord && caseString != CaseInsensitiveWord ==>
      r == Failure(OptionError(arg, BadCase))
    ensures name != [] && typeName != [] && member != [] &&
            (caseString == CaseSensitiveWord || caseString == CaseInsensitiveWord) ==>
      r == Success(Index(name, typeName, member, caseString == CaseSensitiveWord))
  {
    if name == [] then Failure(OptionError(arg, NoName))
    else if typeName == [] then Failure(OptionError(arg, NoType))
    else if member == [] then Failure(OptionError(arg, NoMember))
    else if caseString != CaseSensitiveWord && caseString != CaseInsensitiveWord then
      Failure(OptionError(arg, BadCase))
    else Success(Index(name, typeName, member, caseString == CaseSensitiveWord))
  }

  /** An accepted `--index` string is the text of the index it defines,
      with a case word, or without one and then case-sensitive; name, type
      and member hold no comma. */
  lemma IndexOptionAccepted(arg: string)
    requires IndexOptionOf(arg).Success?
    ensures var ix := IndexOptionOf(arg).value;
      ',' !in ix.name && ',' !in ix.typeName && ',' !in ix.member &&
      (RemoveWhitespace(arg) == IndexText(ix, true) ||
       (RemoveWhitespace(arg) == IndexText(ix, false) && ix.caseSensitive))
  {
    var s := RemoveWhitespace(arg);
    var ix := IndexOptionOf(arg).value;
    var s1 := After(s);
    var rest := After(s1);
    Split(s);
    Split(s1);
    if ',' in rest {
      Split(rest);
      CaseWordsDiffer();
    } else {
      assert ix.member == rest && ix.caseSensitive;
    }
  }

  /** Every well-formed index is defined by its option string, with its
      case word or, when it is case-sensitive, without one. */
  lemma IndexRoundTrip(ix: Index, withCase: bool)
    requires ix.name != [] && ix.typeName != [] && ix.member != []
    requires ',' !in ix.name && ',' !in ix.typeName && ',' !in ix.member
    requires withCase || ix.caseSensitive
    requires NoSpace(IndexText(ix, withCase))
    ensures IndexOptionOf(IndexText(ix, withCase)) == Success(ix)
  {
    assert RemoveWhitespace(IndexText(ix, withCase)) == IndexText(ix, withCase);
    CaseWordsDiffer();
    if withCase {
      var word := CaseWord(ix.caseSensitive);
      BeforeAfterOf(ix.name, ix.typeName + "," + (ix.member + "," + word));
      BeforeAfterOf(ix.typeName, ix.member + "," + word);
      BeforeAfterOf(ix.member, word);
    } else {
      BeforeAfterOf(ix.name, ix.typeName + "," + ix.member);
      BeforeAfterOf(ix.typeName, ix.member);
    }
  }

  /** A case word other than the two allowed is refused, whatever the rest
      of the option string. */
  lemma IndexBadCaseRefused(name: string, typeName: string, member: string, word: string)
    requires name != [] && typeName != [] && member != []
    requires ',' !in name && ',' !in typeName && ',' !in member
    requires word != CaseSensitiveWord && word != CaseInsensitiveWord
    requires NoSpace(name + "," + (typeName + "," + (member + "," + word)))
    ensures IndexOptionOf(name + "," + (typeName + "," + (member + "," + word))) ==
      Failure(OptionError(name + "," + (typeName + "," + (member + "," + word)), BadCase))
  {
    BeforeAfterOf(name, typeName + "," + (member + "," + word));
    BeforeAfterOf(typeName, member + "," + word);
    BeforeAfterOf(member, word);
  }

  /** One turn of the `--index` loop: name, type and member are cut off at
      successive commas, and a third comma leaves the case word. */
  method ParseIndex(arg: string) returns (r: Result<Index, OptionError>)
    ensures r == IndexOptionOf(arg)
  {
    var s := RemoveWhitespace(arg);
    ghost var s0 := s;
    var index := Index("", "", "", false);
    var pos := FindComma(s);
    if pos.Some? {
      BeforeAfterAt(s, pos.value);
      index := index.(name := s[..pos.value]);
      s := s[pos.value + 1..];
    }
    assert index.name == Before(s0) && s == After(s0);
    ghost var s1 := s;
    pos := FindComma(s);
    if pos.Some? {
      BeforeAfterAt(s, pos.value);
      index := index.(typeName := s[..pos.value]);
      s := s[pos.value + 1..];
    }
    assert index.typeName == Before(s1) && s == After(s1);
    ghost var rest := s;
    pos := FindComma(s);
    var caseString;
    if pos.Some? {
      BeforeAfterAt(s, pos.value);
      index := index.(member := s[..pos.value]);
      s := s[pos.value + 1..];
      caseString := s;
    } else {
      index := index.(member := s);
      caseString := CaseSensitiveWord;
    }
    assert index.member == MemberField(rest) && caseString == CaseField(rest);
    assert IndexOptionOf(arg) == CheckIndex(arg, index.name, index.typeName, index.member, caseString);

    if index.name == [] {
      return Failure(OptionError(arg, NoName));
    }
    if index.typeName == [] {
      return Failure(OptionError(arg, NoType));
    }
    if index.member == [] {
      return Failure(OptionError(arg, NoMember));
    }
    if caseString != CaseSensitiveWord && caseString != CaseInsensitiveWord {
      return Failure(OptionError(arg, BadCase));
    }
    index := index.(caseSensitive := caseString == CaseSensitiveWord);
    return Success(index);
  }

  /** The `--index` loop: every option string in turn, stopping at the
      first one refused. */
  method ParseIndexOptions(args: seq<string>) returns (r: Result<seq<Index>, OptionError>)
    ensures r == CollectAll(IndexOptionOf, [], args)
  {
    var indices: seq<Index> := [];
    for n := 0 to |args|
      invariant CollectAll(IndexOptionOf, [], args) == CollectAll(IndexOptionOf, indices, args[n..])
    {
      assert args[n..][0] == args[n] && args[n..][1..] == args[n + 1..];
      var x := ParseIndex(args[n]);
      if x.Failure? {
        return Failure(x.error);
      }
      indices := indices + [x.value];
    }
    assert args[|args|..] == [];
    return Success(indices);
  }

  // ----- --dict-index DICT[,MEMBER][,case] -----

  /** What one `--dict-index` string defines. Without a comma the whole
      string names the dictionary. After the first comma, a second comma
      separates the member from the case word; a single field is the case
      word when it is one of the two allowed words and the member
      otherwise. The index is case-sensitive unless a case word says
      otherwise; an empty dictionary name or a bad case word is refused. */
  function DictIndexOf(arg: string): (r: Result<DictIndexOption, OptionError>)
    ensures r.Failure? ==> r.error.arg == arg && r.error.reason in {NoDictionary, BadCase}
    ensures r.Success? ==> r.value.dictName != [] && ',' !in r.value.dictName
    ensures var s := RemoveWhitespace(arg);
      r == Failure(OptionError(arg, NoDictionary)) <==> s == [] || s[0] == ','
  {
    var s := RemoveWhitespace(arg);
    var dictName := if ',' in s then Before(s) else s;
    var rest := After(s);
    var isWord := rest == CaseSensitiveWord || rest == CaseInsensitiveWord;
    var member :=
      if ',' !in s then []
      else if ',' in rest then Before(rest)
      else if isWord then []
      else rest;
    var caseString :=
      if ',' !in s then CaseSensitiveWord
      else if ',' in rest then After(rest)
      else if isWord then rest
      else CaseSensitiveWord;
    if dictName == [] then Failure(OptionError(arg, NoDictionary))
    else if caseString != CaseSensitiveWord && caseString != CaseInsensitiveWord then
      Failure(OptionError(arg, BadCase))
    else Success(DictIndexOption(dictName, DictIndex(member, caseString == CaseSensitiveWord)))
  }

  /** A dictionary name alone indexes the whole value, case-sensitively. */
  lemma DictIndexNameOnly(dictName: string)
    requires dictName != [] && ',' !in dictName && NoSpace(dictName)
    ensures DictIndexOf(dictName) == Success(DictIndexOption(dictName, DictIndex("", true)))
  {
  }

  /** A single field after the dictionary name is the case word when it is
      one of the two allowed words, and the member otherwise. */
  lemma DictIndexOneField(dictName: string, field: string)
    requires dictName != [] && ',' !in dictName && ',' !in field
    requires NoSpace(dictName + "," + field)
    ensures field == CaseSensitiveWord || field == CaseInsensitiveWord ==>
      DictIndexOf(dictName + "," + field) ==
        Success(DictIndexOption(dictName, DictIndex("", field == CaseSensitiveWord)))
    ensures field != CaseSensitiveWord && field != CaseInsensitiveWord ==>
      DictIndexOf(dictName + "," + field) == Success(DictIndexOption(dictName, DictIndex(field, true)))
  {
    BeforeAfterOf(dictName, field);
  }

  /** Two fields after the dictionary name are the member and the case
      word, and the case word must be one of the two allowed. */
  lemma DictIndexTwoFields(dictName: string, member: string, word: string)
    requires dictName != [] && ',' !in dictName && ',' !in member
    requires NoSpace(dictName + "," + (member + "," + word))
    ensures word == CaseSensitiveWord || word == CaseInsensitiveWord ==>
      DictIndexOf(dictName + "," + (member + "," + word)) ==
        Success(DictIndexOption(dictName, DictIndex(member, word == CaseSensitiveWord)))
    ensures word != CaseSensitiveWord && word != CaseInsensitiveWord ==>
      DictIndexOf(dictName + "," + (member + "," + word)) ==
        Failure(OptionError(dictName + "," + (member + "," + word), BadCase))
  {
    var s := dictName + "," + (member + "," + word);
    assert RemoveWhitespace(s) == s;
    BeforeAfterOf(dictName, member + "," + word);
    assert Before(s) == dictName && After(s) == member + "," + word;
    BeforeAfterOf(member, word);
    assert Before(After(s)) == member && After(After(s)) == word;
  }

  /** std::find over a dictionary's indices, which compares with
      DictIndex::operator==. */
  function Occurs(index: DictIndex, indices: seq<DictIndex>): (found: bool)
    ensures found <==> exists j :: 0 <= j < |indices| && Equals(indices[j], index)
  {
    if indices == [] then false
    else Equals(indices[0], index) || Occurs(index, indices[1..])
  }

  /** The position of the first dictionary with the given name. */
  function FirstDictNamed(dicts: seq<Dict>, name: string): (r: Option<nat>)
    ensures r.None? <==> forall i :: 0 <= i < |dicts| ==> dicts[i].name != name
    ensures r.Some? ==>
      r.value < |dicts| && dicts[r.value].name == name &&
      (forall i :: 0 <= i < r.value ==> dicts[i].name != name)
  {
    if dicts == [] then None
    else if dicts[0].name == name then Some(0)
    else match FirstDictNamed(dicts[1..], name)
      case None => None
      case Some(p) => Some(p + 1)
  }

  /** Attaching a parsed dict-index to the dictionaries defined so far. */
  function Attach(dicts: seq<Dict>, opt: DictIndexOption, arg: string): (r: Result<seq<Dict>, OptionError>)
    ensures r.Failure? ==> r.error.arg == arg && r.error.reason in {UnknownDictionary, DefinedTwice}
    ensures r == Failure(OptionError(arg, UnknownDictionary)) <==>
      forall i :: 0 <= i < |dicts| ==> dicts[i].name != opt.dictName
    ensures r == Failure(OptionError(arg, DefinedTwice)) <==>
      FirstDictNamed(dicts, opt.dictName).Some? &&
      Occurs(opt.index, dicts[FirstDictNamed(dicts, opt.dictName).value].indices)
    ensures r.Success? <==>
      FirstDictNamed(dicts, opt.dictName).Some? &&
      !Occurs(opt.index, dicts[FirstDictNamed(dicts, opt.dictName).value].indices)
    ensures r.Success? ==>
      var p := FirstDictNamed(dicts, opt.dictName).value;
      r.value == dicts[p := dicts[p].(indices := dicts[p].indices + [opt.index])]
  {
    match FirstDictNamed(dicts, opt.dictName)
    case None => Failure(OptionError(arg, UnknownDictionary))
    case Some(p) =>
      if Occurs(opt.index, dicts[p].indices) then Failure(OptionError(arg, DefinedTwice))
      else Success(dicts[p := dicts[p].(indices := dicts[p].indices + [opt.index])])
  }

  /** Attaching keeps every dictionary's name, key and value, and its
      indices except for the one that is appended. */
  lemma AttachKeepsDefinitions(dicts: seq<Dict>, opt: DictIndexOption, arg: string)
    requires Attach(dicts, opt, arg).Success?
    ensures var ds := Attach(dicts, opt, arg).value;
      |ds| == |dicts| &&
      (forall i :: 0 <= i < |ds| ==>
        ds[i].name == dicts[i].name && ds[i].key == dicts[i].key && ds[i].value == dicts[i].value) &&
      (forall i :: 0 <= i < |ds| && ds[i].indices != dicts[i].indices ==>
        ds[i].name == opt.dictName && ds[i].indices == dicts[i].indices + [opt.index])
  {
  }

  /** Equality ignores case sensitivity: once an index on a member is
      attached, attaching the same member with the other case sensitivity
      is refused as defined twice. */
  lemma AttachTwiceRefused(dicts: seq<Dict>, opt: DictIndexOption, arg: string, arg2: string)
    requires Attach(dicts, opt, arg).Success?
    ensures var again := opt.(index := opt.index.(caseSensitive := !opt.index.caseSensitive));
      Attach(Attach(dicts, opt, arg).value, again, arg2) == Failure(OptionError(arg2, DefinedTwice))
  {
    var ds := Attach(dicts, opt, arg).value;
    var p := FirstDictNamed(dicts, opt.dictName).value;
    var again := opt.(index := opt.index.(caseSensitive := !opt.index.caseSensitive));
    AttachKeepsDefinitions(dicts, opt, arg);
    assert ds[p].name == opt.dictName;
    var q := FirstDictNamed(ds, opt.dictName).value;
    assert q == p;
    assert ds[p].indices[|ds[p].indices| - 1] == opt.index;
    assert Equals(ds[p].indices[|ds[p].indices| - 1], again.index);
  }

  /** The whole `--dict-index` loop as a fold: each option string in turn
      is parsed and attached, stopping at the first refusal. */
  function AttachAll(dicts: seq<Dict>, args: seq<string>): Result<seq<Dict>, OptionError>
    decreases |args|
  {
    if args == [] then Success(dicts)
    else match DictIndexOf(args[0])
      case Failure(e) => Failure(e)
      case Success(opt) =>
        match Attach(dicts, opt, args[0])
        case Failure(e) => Failure(e)
        case Success(ds) => AttachAll(ds, args[1..])
  }

  /** Attaching never adds, removes or redefines a dictionary. */
  lemma {:induction false} AttachAllKeepsDefinitions(dicts: seq<Dict>, args: seq<string>)
    requires AttachAll(dicts, args).Success?
    ensures var ds := AttachAll(dicts, args).value;
      |ds| == |dicts| && forall i :: 0 <= i < |ds| ==>
        ds[i].name == dicts[i].name && ds[i].key == dicts[i].key && ds[i].value == dicts[i].value &&
        |ds[i].indices| >= |dicts[i].indices| && ds[i].indices[..|dicts[i].indices|] == dicts[i].indices
    decreases |args|
  {
    if args != [] {
      var opt := DictIndexOf(args[0]).value;
      var ds := Attach(dicts, opt, args[0]).value;
      AttachKeepsDefinitions(dicts, opt, args[0]);
      AttachAllKeepsDefinitions(ds, args[1..]);
      var fin := AttachAll(dicts, args).value;
      forall i | 0 <= i < |fin|
        ensures |fin[i].indices| >= |dicts[i].indices| && fin[i].indices[..|dicts[i].indices|] == dicts[i].indices
      {
        assert fin[i].indices[..|ds[i].indices|] == ds[i].indices;
        assert ds[i].indices[..|dicts[i].indices|] == dicts[i].indices;
      }
    }
  }

  /** Parsing one `--dict-index` string, as the `--dict-index` loop does
      before it looks for the dictionary. */
  method ParseDictIndex(arg: string) returns (r: Result<DictIndexOption, OptionError>)
    ensures r == DictIndexOf(arg)
  {
    var s := RemoveWhitespace(arg);
    ghost var s0 := s;
    var dictName := "";
    var index := DictIndex("", true);
    var caseString := CaseSensitiveWord;
    var pos := FindComma(s);
    if pos.Some? {
      BeforeAfterAt(s, pos.value);
      dictName := s[..pos.value];
      s := s[pos.value + 1..];
      ghost var rest := s;
      pos := FindComma(s);
      if pos.Some? {
        BeforeAfterAt(s, pos.value);
        index := index.(member := s[..pos.value]);
        s := s[pos.value + 1..];
        caseString := s;
      } else if s == CaseSensitiveWord || s == CaseInsensitiveWord {
        caseString := s;
      } else {
        index := index.(member := s);
      }
      assert rest == After(s0);
    } else {
      dictName := s;
    }

    if dictName == [] {
      return Failure(OptionError(arg, NoDictionary));
    }
    if caseString != CaseSensitiveWord && caseString != CaseInsensitiveWord {
      return Failure(OptionError(arg, BadCase));
    }
    index := index.(caseSensitive := caseString == CaseSensitiveWord);
    return Success(DictIndexOption(dictName, index));
  }

  /** Attaching one parsed dict-index: scan for the first dictionary of
      that name and append the index to it unless it is already there. */
  method AttachOne(dicts: seq<Dict>, opt: DictIndexOption, arg: string) returns (r: Result<seq<Dict>, OptionError>)
    ensures r == Attach(dicts, opt, arg)
  {
    var p := 0;
    while p < |dicts|
      invariant 0 <= p <= |dicts|
      invariant forall i :: 0 <= i < p ==> dicts[i].name != opt.dictName
    {
      if dicts[p].name == opt.dictName {
        assert FirstDictNamed(dicts, opt.dictName) == Some(p);
        if Occurs(opt.index, dicts[p].indices) {
          return Failure(OptionError(arg, DefinedTwice));
        }
        return Success(dicts[p := dicts[p].(indices := dicts[p].indices + [opt.index])]);
      }
      p := p + 1;
    }
    return Failure(OptionError(arg, UnknownDictionary));
  }

  /** The `--dict-index` loop: parse each string and attach it, stopping
      at the first refusal. */
  method AttachDictIndexOptions(dicts: seq<Dict>, args: seq<string>) returns (r: Result<seq<Dict>, OptionError>)
    ensures r == AttachAll(dicts, args)
  {
    var ds := dicts;
    for n := 0 to |args|
      invariant AttachAll(dicts, args) == AttachAll(ds, args[n..])
    {
      assert args[n..][0] == args[n] && args[n..][1..] == args[n + 1..];
      var opt := ParseDictIndex(args[n]);
      if opt.Failure? {
        return Failure(opt.error);
      }
      var attached := AttachOne(ds, opt.value, args[n]);
      if attached.Failure? {
        return Failure(attached.error);
      }
      ds := attached.value;
    }
    assert args[|args|..] == [];
    return Success(ds);
  }
}
