/** The part of the Slice type system that the Freeze front end consults:
    builtin kinds, the user-defined types a dictionary or index may name,
    the unit's name lookup and the rule for legal (ordered) key types.
    The bodies of Unit::lookupType and Dictionary::legalKeyType belong to
    the Slice library; the functions here are a model of them. */
module SliceTypes {
  import opened Wrappers

  /** The builtin kinds in the order of Slice's Builtin::Kind enumeration. */
  datatype BuiltinKind =
    | KindByte | KindBool | KindShort | KindInt | KindLong
    | KindFloat | KindDouble | KindString
    | KindObject | KindObjectProxy | KindLocalObject | KindValue

  /** A data member of a struct or class. */
  datatype DataMember = DataMember(name: string, memberType: TypeDescriptor)

  /** A resolved Slice type. Every user-defined type carries the Java name
      that the Java mapping gives it (`javaName`); how that name is derived
      from the Slice scoped name is library code outside this model.
      A class carries all its data members, inherited ones first, as
      ClassDef::allDataMembers returns them. */
  datatype TypeDescriptor =
    | Builtin(kind: BuiltinKind)
    | Enum(javaName: string)
    | Struct(javaName: string, dataMembers: seq<DataMember>)
    | Class(javaName: string, allDataMembers: seq<DataMember>)
    | Proxy(javaName: string)
    | Sequence(javaName: string, element: TypeDescriptor)
    | Dictionary(javaName: string, keyType: TypeDescriptor, valueType: TypeDescriptor)

  /** The parsed Slice unit: the user-defined types by the name a command
      line option uses for them. */
  datatype Unit = Unit(types: map<string, TypeDescriptor>)

  /** The Slice keyword that names each builtin kind. */
  function Keyword(k: BuiltinKind): string
  {
    match k
    case KindByte => "byte"
    case KindBool => "bool"
    case KindShort => "short"
    case KindInt => "int"
    case KindLong => "long"
    case KindFloat => "float"
    case KindDouble => "double"
    case KindString => "string"
    case KindObject => "Object"
    case KindObjectProxy => "Object*"
    case KindLocalObject => "LocalObject"
    case KindValue => "Value"
  }

  /** The builtin kind a keyword names, if any. */
  function KindNamed(name: string): (r: Option<BuiltinKind>)
    ensures r.Some? ==> Keyword(r.value) == name
    ensures r.None? ==> forall k: BuiltinKind :: Keyword(k) != name
  {
    if name == "byte" then Some(KindByte)
    else if name == "bool" then Some(KindBool)
    else if name == "short" then Some(KindShort)
    else if name == "int" then Some(KindInt)
    else if name == "long" then Some(KindLong)
    else if name == "float" then Some(KindFloat)
    else if name == "double" then Some(KindDouble)
    else if name == "string" then Some(KindString)
    else if name == "Object" then Some(KindObject)
    else if name == "Object*" then Some(KindObjectProxy)
    else if name == "LocalObject" then Some(KindLocalObject)
    else if name == "Value" then Some(KindValue)
    else None
  }

  /** Unit::lookupType(name, false): a builtin keyword names its builtin,
      any other name the unit's type of that name; the front of the
      returned list is taken, so an empty list is None. */
  function LookupType(u: Unit, name: string): (r: Option<TypeDescriptor>)
    ensures r.None? <==> KindNamed(name).None? && name !in u.types
    ensures KindNamed(name).Some? ==> r == Some(Builtin(KindNamed(name).value))
  {
    match KindNamed(name)
    case Some(k) => Some(Builtin(k))
    case None => if name in u.types then Some(u.types[name]) else None
  }

  predicate IsString(t: TypeDescriptor)
  {
    t == Builtin(KindString)
  }

  /** The outcome of Dictionary::legalKeyType: whether the type may be
      used as an ordered key, and the in/out flag that records whether a
      sequence was met on the way. */
  datatype Legality = Legality(legal: bool, containsSequence: bool)

  /** Dictionary::legalKeyType. Integral builtins, bool and string are
      legal; float, double and the object kinds are not; enums are legal;
      a sequence sets the flag and is legal when its element type is; a
      struct is legal when all its members are, checked in order and
      stopping at the first illegal one; every other type is illegal. */
  function LegalKeyType(t: TypeDescriptor): (r: Legality)
    ensures (t.Class? || t.Proxy? || t.Dictionary?) ==> !r.legal
    ensures t.Sequence? ==> r.containsSequence
    decreases t, 1
  {
    match t
    case Builtin(k) =>
      Legality(k in {KindByte, KindBool, KindShort, KindInt, KindLong, KindString}, false)
    case Enum(_) => Legality(true, false)
    case Sequence(_, e) => Legality(LegalKeyType(e).legal, true)
    case Struct(_, ms) => LegalMembers(t, 0, false)
    case Class(_, _) => Legality(false, false)
    case Proxy(_) => Legality(false, false)
    case Dictionary(_, _, _) => Legality(false, false)
  }

  /** The member loop of legalKeyType for a struct, from member `i` on,
      with the flag as the members before `i` left it. */
  function LegalMembers(t: TypeDescriptor, i: nat, containsSequence: bool): (r: Legality)
    requires t.Struct? && i <= |t.dataMembers|
    decreases t, 0, |t.dataMembers| - i
  {
    if i == |t.dataMembers| then Legality(true, containsSequence)
    else
      assert t.dataMembers[i] in t.dataMembers;
      var m := LegalKeyType(t.dataMembers[i].memberType);
      var flag := containsSequence || m.containsSequence;
      if !m.legal then Legality(false, flag) else LegalMembers(t, i + 1, flag)
  }

  /** A type has a sequence on a path that legalKeyType explores: the type
      itself, the element of a sequence, or a member of a struct. */
  ghost predicate EmbedsSequence(t: TypeDescriptor)
    decreases t
  {
    match t
    case Sequence(_, _) => true
    case Struct(_, ms) =>
      exists i :: 0 <= i < |ms| && (assert ms[i] in ms; EmbedsSequence(ms[i].memberType))
    case _ => false
  }

  /** A legal key type raises the deprecation flag exactly when it embeds a
      sequence: the warning is neither missed nor spurious. */
  lemma {:induction false} DeprecationFlagExact(t: TypeDescriptor)
    requires LegalKeyType(t).legal
    ensures LegalKeyType(t).containsSequence <==> EmbedsSequence(t)
    decreases t, 1
  {
    match t
    case Struct(_, ms) => LegalMembersFlag(t, 0, false);
    case _ =>
  }

  lemma {:induction false} LegalMembersFlag(t: TypeDescriptor, i: nat, flag: bool)
    requires t.Struct? && i <= |t.dataMembers|
    requires LegalMembers(t, i, flag).legal
    ensures forall j :: i <= j < |t.dataMembers| ==> LegalKeyType(t.dataMembers[j].memberType).legal
    ensures LegalMembers(t, i, flag).containsSequence <==>
      flag || exists j :: i <= j < |t.dataMembers| && EmbedsSequence(t.dataMembers[j].memberType)
    decreases t, 0, |t.dataMembers| - i
  {
    if i < |t.dataMembers| {
      var ms := t.dataMembers;
      assert ms[i] in ms;
      DeprecationFlagExact(ms[i].memberType);
      LegalMembersFlag(t, i + 1, flag || LegalKeyType(ms[i].memberType).containsSequence);
    }
  }

  /** The position of the first data member with the given name, as the
      front end's member scans find it. */
  function FirstNamed(ms: seq<DataMember>, name: string): (r: Option<nat>)
    ensures r.None? <==> forall j :: 0 <= j < |ms| ==> ms[j].name != name
    ensures r.Some? ==> r.value < |ms| && ms[r.value].name == name &&
                        forall j :: 0 <= j < r.value ==> ms[j].name != name
  {
    if ms == [] then None
    else if ms[0].name == name then Some(0)
    else match FirstNamed(ms[1..], name)
      case None => None
      case Some(j) => Some(j + 1)
  }
}
