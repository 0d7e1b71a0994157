/** The checks the Freeze Java generator makes before it emits a map or an
    evictor index class: the named types must exist, every index of a map
    must index something ordered, a case-insensitive index must index a
    string, a member index needs a class or struct value with a data
    member of that name, and an evictor index needs a class. The Java
    text that follows the checks is not modelled. */
module FreezeGenerator {
  import opened Wrappers
  import opened SliceTypes
  import opened JavaNames
  import opened FreezeOptions
  import opened Collect

  /** The errors the generator throws, with the names they quote. */
  datatype GenError =
    | NotAValidType(typeName: string)
    | BadIndex(dictName: string)
    | NotAValidIndexType(valueName: string)
    | ValueNotString(valueName: string)
    | NeitherClassNorStruct(valueName: string)
    | NoSuchDataMember(owner: string, member: string)
    | NotAnIndexKey(member: string)
    | MemberNotString(member: string)
    | NotAClass(typeName: string)

  /** What the generator records for one index of a map: the type of the
      index key, the member name, its capitalised form, the name of the
      index and whether the deprecation warning for sequences is given. */
  datatype IndexEntry = IndexEntry(
    indexType: TypeDescriptor,
    member: string,
    capitalizedMember: string,
    indexName: string,
    deprecatedSequence: bool)

  /** A map that passed the checks: its class name and its resolved key and
      value types, and one entry per index, in order. */
  datatype DictPlan = DictPlan(
    className: string,
    keyType: TypeDescriptor,
    valueType: TypeDescriptor,
    entries: seq<IndexEntry>)

  /** The data members a member index may name: all data members of a
      class, inherited ones included, or the members of a struct. */
  function MembersOf(t: TypeDescriptor): (ms: seq<DataMember>)
    requires t.Struct? || t.Class?
  {
    if t.Class? then t.allDataMembers else t.dataMembers
  }

  /** The member scan of both generators: the position of the first data
      member with the given name. */
  method FindDataMember(ms: seq<DataMember>, name: string) returns (r: Option<nat>)
    ensures r == FirstNamed(ms, name)
  {
    var q := 0;
    while q < |ms|
      invariant 0 <= q <= |ms|
      invariant forall j :: 0 <= j < q ==> ms[j].name != name
    {
      if ms[q].name == name {
        return Some(q);
      }
      q := q + 1;
    }
    return None;
  }

  /** The checks on one index of `dict`, whose value type is `valueType`,
      in the order the generator makes them. */
  function IndexEntryOf(dict: Dict, valueType: TypeDescriptor, index: DictIndex): (r: Result<IndexEntry, GenError>)
    ensures r.Success? ==> r.value.member == (if index.member == [] then "value" else index.member)
    ensures r.Success? ==> LegalKeyType(r.value.indexType).legal
    ensures r.Success? ==> r.value.deprecatedSequence == LegalKeyType(r.value.indexType).containsSequence
    ensures r.Success? && !index.caseSensitive ==> IsString(r.value.indexType)
  {
    if index.member == [] then
      if |dict.indices| > 1 then Failure(BadIndex(dict.name))
      else
        var legality := LegalKeyType(valueType);
        if !legality.legal then Failure(NotAValidIndexType(dict.value))
        else if !index.caseSensitive && !IsString(valueType) then Failure(ValueNotString(dict.value))
        else Success(IndexEntry(valueType, "value", "Value", "index", legality.containsSequence))
    else if !valueType.Class? && !valueType.Struct? then Failure(NeitherClassNorStruct(dict.value))
    else
      match FirstNamed(MembersOf(valueType), index.member)
      case None => Failure(NoSuchDataMember(dict.name, index.member))
      case Some(q) =>
        var memberType := MembersOf(valueType)[q].memberType;
        var legality := LegalKeyType(memberType);
        if !legality.legal then Failure(NotAnIndexKey(index.member))
        else if !index.caseSensitive && !IsString(memberType) then Failure(MemberNotString(index.member))
        else
          Success(IndexEntry(memberType, index.member, Capitalize(index.member), index.member,
                             legality.containsSequence))
  }

  /** A whole-value index is refused whenever the map has more than one
      index. */
  lemma WholeValueIndexAlone(dict: Dict, valueType: TypeDescriptor, index: DictIndex)
    requires index.member == [] && |dict.indices| > 1
    ensures IndexEntryOf(dict, valueType, index) == Failure(BadIndex(dict.name))
  {
  }

  /** A whole-value index, alone on its map, is accepted exactly when the
      value type is a legal key type and, for a case-insensitive index, the
      string builtin; it then indexes the value under the name "index". */
  lemma WholeValueIndexAccepted(dict: Dict, valueType: TypeDescriptor, index: DictIndex)
    requires index.member == [] && |dict.indices| <= 1
    ensures IndexEntryOf(dict, valueType, index).Success? <==>
      LegalKeyType(valueType).legal && (index.caseSensitive || IsString(valueType))
    ensures IndexEntryOf(dict, valueType, index).Success? ==>
      IndexEntryOf(dict, valueType, index).value ==
        IndexEntry(valueType, "value", "Value", "index", LegalKeyType(valueType).containsSequence)
    ensures !LegalKeyType(valueType).legal ==>
      IndexEntryOf(dict, valueType, index) == Failure(NotAValidIndexType(dict.value))
    ensures LegalKeyType(valueType).legal && !index.caseSensitive && !IsString(valueType) ==>
      IndexEntryOf(dict, valueType, index) == Failure(ValueNotString(dict.value))
  {
  }

  /** A member index is refused when the value is neither a class nor a
      struct or has no data member of that name; otherwise it indexes the
      FIRST data member of that name, under the member's own name. */
  lemma MemberIndexSelectsFirst(dict: Dict, valueType: TypeDescriptor, index: DictIndex)
    requires index.member != []
    ensures !valueType.Class? && !valueType.Struct? ==>
      IndexEntryOf(dict, valueType, index) == Failure(NeitherClassNorStruct(dict.value))
    ensures (valueType.Class? || valueType.Struct?) &&
            (forall j :: 0 <= j < |MembersOf(valueType)| ==> MembersOf(valueType)[j].name != index.member)
      ==>
      IndexEntryOf(dict, valueType, index) == Failure(NoSuchDataMember(dict.name, index.member))
    ensures IndexEntryOf(dict, valueType, index).Success? ==>
      (valueType.Class? || valueType.Struct?) &&
      exists q :: 0 <= q < |MembersOf(valueType)| &&
        MembersOf(valueType)[q].name == index.member &&
        (forall j :: 0 <= j < q ==> MembersOf(valueType)[j].name != index.member) &&
        IndexEntryOf(dict, valueType, index).value ==
          IndexEntry(MembersOf(valueType)[q].memberType, index.member, Capitalize(index.member),
                     index.member, LegalKeyType(MembersOf(valueType)[q].memberType).containsSequence)
  {
    if IndexEntryOf(dict, valueType, index).Success? {
      var q := FirstNamed(MembersOf(valueType), index.member).value;
      assert MembersOf(valueType)[q].name == index.member;
    }
  }

  /** A member index on a class or struct that has a data member of that
      name, the first one at position `q`, is accepted exactly when that
      member's type is a legal key type and, for a case-insensitive index,
      the string builtin. An illegal type is refused as not an index key,
      and a case-insensitive index on another legal type as not a string. */
  lemma MemberIndexAccepted(dict: Dict, valueType: TypeDescriptor, index: DictIndex, q: nat)
    requires index.member != [] && (valueType.Class? || valueType.Struct?)
    requires q < |MembersOf(valueType)| && MembersOf(valueType)[q].name == index.member
    requires forall j :: 0 <= j < q ==> MembersOf(valueType)[j].name != index.member
    ensures var m := MembersOf(valueType)[q].memberType;
      IndexEntryOf(dict, valueType, index).Success? <==>
        LegalKeyType(m).legal && (index.caseSensitive || IsString(m))
    ensures var m := MembersOf(valueType)[q].memberType;
      !LegalKeyType(m).legal ==> IndexEntryOf(dict, valueType, index) == Failure(NotAnIndexKey(index.member))
    ensures var m := MembersOf(valueType)[q].memberType;
      LegalKeyType(m).legal && !index.caseSensitive && !IsString(m) ==>
        IndexEntryOf(dict, valueType, index) == Failure(MemberNotString(index.member))
  {
    assert FirstNamed(MembersOf(valueType), index.member) == Some(q);
  }

  /** The capitalised member of an accepted member index differs from the
      member only in its first character, which is upper-cased. */
  lemma CapitalizedMemberName(dict: Dict, valueType: TypeDescriptor, index: DictIndex)
    requires index.member != [] && IndexEntryOf(dict, valueType, index).Success?
    ensures var e := IndexEntryOf(dict, valueType, index).value;
      |e.capitalizedMember| == |index.member| &&
      e.capitalizedMember[0] == ToUpper(index.member[0]) &&
      e.capitalizedMember[1..] == index.member[1..]
  {
  }

  /** The check of one index of `dict`, as a step of the index loop. */
  function IndexStep(dict: Dict, valueType: TypeDescriptor): DictIndex -> Result<IndexEntry, GenError>
  {
    index => IndexEntryOf(dict, valueType, index)
  }

  /** generate(Dict) up to the first line of Java: the class name, then the
      key and value lookups, then every index in turn. */
  function DictPlanOf(u: Unit, dict: Dict): (r: Result<DictPlan, GenError>)
    ensures r.Success? ==> r.value.className == ShortName(dict.name)
    ensures r.Success? ==> LookupType(u, dict.key) == Some(r.value.keyType)
    ensures r.Success? ==> LookupType(u, dict.value) == Some(r.value.valueType)
  {
    match LookupType(u, dict.key)
    case None => Failure(NotAValidType(dict.key))
    case Some(keyType) =>
      match LookupType(u, dict.value)
      case None => Failure(NotAValidType(dict.value))
      case Some(valueType) =>
        match CollectAll(IndexStep(dict, valueType), [], dict.indices)
        case Failure(e) => Failure(e)
        case Success(entries) => Success(DictPlan(ShortName(dict.name), keyType, valueType, entries))
  }

  /** A map passes the checks exactly when its key and value types exist
      and each of its indices is accepted; its entries are those of its
      indices, in order. The key type itself is never checked for
      legality. */
  lemma DictPlanMeaning(u: Unit, dict: Dict)
    ensures DictPlanOf(u, dict).Success? <==>
      LookupType(u, dict.key).Some? && LookupType(u, dict.value).Some? &&
      forall j :: 0 <= j < |dict.indices| ==>
        IndexEntryOf(dict, LookupType(u, dict.value).value, dict.indices[j]).Success?
    ensures DictPlanOf(u, dict).Success? ==>
      var plan := DictPlanOf(u, dict).value;
      |plan.entries| == |dict.indices| &&
      forall j :: 0 <= j < |dict.indices| ==>
        IndexEntryOf(dict, plan.valueType, dict.indices[j]) == Success(plan.entries[j])
    ensures LookupType(u, dict.key).None? ==> DictPlanOf(u, dict) == Failure(NotAValidType(dict.key))
    ensures LookupType(u, dict.key).Some? && LookupType(u, dict.value).None? ==>
      DictPlanOf(u, dict) == Failure(NotAValidType(dict.value))
    ensures LookupType(u, dict.key).Some? && LookupType(u, dict.value).Some? && DictPlanOf(u, dict).Failure? ==>
      exists k :: 0 <= k < |dict.indices| &&
        IndexEntryOf(dict, LookupType(u, dict.value).value, dict.indices[k]) == Failure(DictPlanOf(u, dict).error) &&
        forall i :: 0 <= i < k ==> IndexEntryOf(dict, LookupType(u, dict.value).value, dict.indices[i]).Success?
  {
    if LookupType(u, dict.key).Some? && LookupType(u, dict.value).Some? {
      CollectAllMeaning(IndexStep(dict, LookupType(u, dict.value).value), [], dict.indices);
    }
  }

  /** The index loop of generate(Dict): each index is checked in turn and
      its entry appended, stopping at the first refusal. */
  method CheckIndices(dict: Dict, valueType: TypeDescriptor) returns (r: Result<seq<IndexEntry>, GenError>)
    ensures r == CollectAll(IndexStep(dict, valueType), [], dict.indices)
  {
    var entries: seq<IndexEntry> := [];
    for i := 0 to |dict.indices|
      invariant CollectAll(IndexStep(dict, valueType), [], dict.indices) == CollectAll(IndexStep(dict, valueType), entries, dict.indices[i..])
    {
      var index := dict.indices[i];
      var entry;
      if index.member == [] {
        if |dict.indices| > 1 {
          return Failure(BadIndex(dict.name));
        }
        var legality := LegalKeyType(valueType);
        if !legality.legal {
          return Failure(NotAValidIndexType(dict.value));
        }
        if !index.caseSensitive && !IsString(valueType) {
          return Failure(ValueNotString(dict.value));
        }
        entry := IndexEntry(valueType, "value", "Value", "index", legality.containsSequence);
      } else {
        var members;
        if valueType.Class? {
          members := valueType.allDataMembers;
        } else if valueType.Struct? {
          members := valueType.dataMembers;
        } else {
          return Failure(NeitherClassNorStruct(dict.value));
        }
        var q := FindDataMember(members, index.member);
        if q.None? {
          return Failure(NoSuchDataMember(dict.name, index.member));
        }
        var memberType := members[q.value].memberType;
        var legality := LegalKeyType(memberType);
        if !legality.legal {
          return Failure(NotAnIndexKey(index.member));
        }
        if !index.caseSensitive && !IsString(memberType) {
          return Failure(MemberNotString(index.member));
        }
        entry := IndexEntry(memberType, index.member, Capitalize(index.member), index.member,
                            legality.containsSequence);
      }
      assert dict.indices[i..][0] == index && dict.indices[i..][1..] == dict.indices[i + 1..];
      assert IndexEntryOf(dict, valueType, index) == Success(entry);
      entries := entries + [entry];
    }
    return Success(entries);
  }

  /** generate(Dict) up to the first line of Java. */
  method ValidateDict(u: Unit, dict: Dict) returns (r: Result<DictPlan, GenError>)
    ensures r == DictPlanOf(u, dict)
  {
    var name := ShortName(dict.name);
    var keyType := LookupType(u, dict.key);
    if keyType.None? {
      return Failure(NotAValidType(dict.key));
    }
    var valueType := LookupType(u, dict.value);
    if valueType.None? {
      return Failure(NotAValidType(dict.value));
    }
    var entries := CheckIndices(dict, valueType.value);
    if entries.Failure? {
      return Failure(entries.error);
    }
    return Success(DictPlan(name, keyType.value, valueType.value, entries.value));
  }

  // ----- generate(Index): the evictor index -----

  /** An evictor index that passed the checks: its class name, the class
      it indexes and the type of the indexed member. */
  datatype IndexPlan = IndexPlan(className: string, classType: TypeDescriptor, memberType: TypeDescriptor)

  /** generate(Index) up to the first line of Java: the type must exist and
      be a class, the member must be one of its data members (the first of
      that name is used) and a case-insensitive index needs a string
      member. Unlike a map index, the member's type is not checked for
      legality as a key. */
  function IndexPlanOf(u: Unit, index: Index): (r: Result<IndexPlan, GenError>)
    ensures r.Success? ==> r.value.className == ShortName(index.name)
    ensures r.Success? ==> LookupType(u, index.typeName) == Some(r.value.classType) && r.value.classType.Class?
    ensures r.Success? && !index.caseSensitive ==> IsString(r.value.memberType)
    ensures LookupType(u, index.typeName).None? ==> r == Failure(NotAValidType(index.typeName))
  {
    match LookupType(u, index.typeName)
    case None => Failure(NotAValidType(index.typeName))
    case Some(t) =>
      if !t.Class? then Failure(NotAClass(index.typeName))
      else match FirstNamed(t.allDataMembers, index.member)
        case None => Failure(NoSuchDataMember(index.typeName, index.member))
        case Some(q) =>
          var memberType := t.allDataMembers[q].memberType;
          if !index.caseSensitive && !IsString(memberType) then Failure(MemberNotString(index.member))
          else Success(IndexPlan(ShortName(index.name), t, memberType))
  }

  /** An evictor index is accepted exactly when its type is a class with a
      data member of that name, string-typed when the index is
      case-insensitive; the indexed member is the first of that name. */
  lemma IndexPlanMeaning(u: Unit, index: Index)
    ensures IndexPlanOf(u, index).Success? <==>
      var t := LookupType(u, index.typeName);
      t.Some? && t.value.Class? && FirstNamed(t.value.allDataMembers, index.member).Some? &&
      (index.caseSensitive ||
       IsString(t.value.allDataMembers[FirstNamed(t.value.allDataMembers, index.member).value].memberType))
    ensures LookupType(u, index.typeName).Some? && !LookupType(u, index.typeName).value.Class? ==>
      IndexPlanOf(u, index) == Failure(NotAClass(index.typeName))
    ensures var t := LookupType(u, index.typeName);
      t.Some? && t.value.Class? && FirstNamed(t.value.allDataMembers, index.member).None? ==>
        IndexPlanOf(u, index) == Failure(NoSuchDataMember(index.typeName, index.member))
    ensures var t := LookupType(u, index.typeName);
      t.Some? && t.value.Class? && FirstNamed(t.value.allDataMembers, index.member).Some? &&
      !index.caseSensitive &&
      !IsString(t.value.allDataMembers[FirstNamed(t.value.allDataMembers, index.member).value].memberType) ==>
        IndexPlanOf(u, index) == Failure(MemberNotString(index.member))
    ensures IndexPlanOf(u, index).Success? ==>
      var ms := IndexPlanOf(u, index).value.classType.allDataMembers;
      exists q :: 0 <= q < |ms| && ms[q].name == index.member &&
        (forall j :: 0 <= j < q ==> ms[j].name != index.member) &&
        IndexPlanOf(u, index).value.memberType == ms[q].memberType
  {
    if IndexPlanOf(u, index).Success? {
      var ms := IndexPlanOf(u, index).value.classType.allDataMembers;
      var q := FirstNamed(ms, index.member).value;
      assert ms[q].name == index.member;
    }
  }

  /** The evictor index does not ask for a legal key type: a class whose
      member is a double may be indexed on that member, although a map
      index on the same member is refused. */
  lemma EvictorIndexSkipsKeyLegality()
    ensures var c := Class("Demo.Account", [DataMember("balance", Builtin(KindDouble))]);
      var u := Unit(map["Account" := c]);
      IndexPlanOf(u, Index("AccountIndex", "Account", "balance", true)).Success? &&
      IndexEntryOf(Dict("Accounts", "string", "Account", [DictIndex("balance", true)]), c,
                   DictIndex("balance", true)) == Failure(NotAnIndexKey("balance"))
  {
    var c := Class("Demo.Account", [DataMember("balance", Builtin(KindDouble))]);
    assert FirstNamed(c.allDataMembers, "balance") == Some(0);
    assert KindNamed("Account").None?;
  }

  /** generate(Index) up to the first line of Java. */
  method ValidateIndex(u: Unit, index: Index) returns (r: Result<IndexPlan, GenError>)
    ensures r == IndexPlanOf(u, index)
  {
    var name := ShortName(index.name);
    var t := LookupType(u, index.typeName);
    if t.None? {
      return Failure(NotAValidType(index.typeName));
    }
    if !t.value.Class? {
      return Failure(NotAClass(index.typeName));
    }
    var q := FindDataMember(t.value.allDataMembers, index.member);
    if q.None? {
      return Failure(NoSuchDataMember(index.typeName, index.member));
    }
    var memberType := t.value.allDataMembers[q.value].memberType;
    if !index.caseSensitive && !IsString(memberType) {
      return Failure(MemberNotString(index.member));
    }
    return Success(IndexPlan(name, t.value, memberType));
  }

  // ----- encoding of keys, values and index keys -----

  /** What a generated map encodes: its key, its value, or the key of one
      of its indices. */
  datatype Encoded = MapKey | MapValue | IndexKey(index: DictIndex)

  /** Whether the encoder wraps the encoding in an encapsulation: map keys
      are not encapsulated and values are; a whole-value index key is
      encoded by the value encoder, and a member index key directly. */
  function Encapsulated(what: Encoded): bool
  {
    match what
    case MapKey => false
    case MapValue => true
    case IndexKey(index) => index.member == []
  }

  /** The Java expression an index key is encoded from: a case-insensitive
      key is lower-cased first, and a member key of a primitive type is
      unboxed. */
  function IndexKeyExpression(index: DictIndex, indexType: TypeDescriptor): (r: string)
  {
    var keyS := if index.caseSensitive then "key" else "key.toLowerCase()";
    if index.member == [] then keyS else ObjectToVar(indexType, keyS)
  }

  /** An index key is encoded exactly as the map encodes its value when it
      indexes the whole value, and exactly as the map encodes its key
      otherwise; only a member index of a primitive type unboxes. */
  lemma IndexKeyEncoding(index: DictIndex, indexType: TypeDescriptor)
    ensures Encapsulated(IndexKey(index)) == Encapsulated(MapValue) <==> index.member == []
    ensures Encapsulated(IndexKey(index)) == Encapsulated(MapKey) <==> index.member != []
    ensures IndexKeyExpression(index, indexType) == (if index.caseSensitive then "key" else "key.toLowerCase()") <==>
      index.member == [] || !IsPrimitive(indexType)
  {
    var keyS := if index.caseSensitive then "key" else "key.toLowerCase()";
    BoxingMatchesUnboxing(indexType, keyS);
  }
}
