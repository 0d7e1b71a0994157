/** The small name and expression helpers of the Freeze Java generator:
    the boxed Java type of a Slice type, boxing and unboxing expressions,
    the short class name of a scoped name and capitalised member names. */
module JavaNames {
  import opened Wrappers
  import opened SliceTypes

  /** The position of a builtin kind in Slice's Builtin::Kind enumeration. */
  function Ordinal(k: BuiltinKind): (n: nat)
    ensures n < 12
  {
    match k
    case KindByte => 0
    case KindBool => 1
    case KindShort => 2
    case KindInt => 3
    case KindLong => 4
    case KindFloat => 5
    case KindDouble => 6
    case KindString => 7
    case KindObject => 8
    case KindObjectProxy => 9
    case KindLocalObject => 10
    case KindValue => 11
  }

  /** The builtin table of typeToObjectString as the source declares it:
      eleven entries, indexed by the kind's ordinal. */
  const BuiltinTableAsWritten: seq<string> := [
    "java.lang.Byte", "java.lang.Boolean", "java.lang.Short", "java.lang.Integer",
    "java.lang.Long", "java.lang.Float", "java.lang.Double", "java.lang.String",
    "Ice.Object", "Ice.ObjectPrx", "Ice.LocalObject"]

  /** typeToObjectString as written. An ordinal past the end of the table
      is an out-of-bounds read in the source; it is None here. A
      user-defined type gets its Java-mapped name. */
  function TypeToObjectStringAsWritten(t: TypeDescriptor): (r: Option<string>)
    ensures !t.Builtin? ==> r == Some(t.javaName)
    ensures r.None? ==> t.Builtin? && Ordinal(t.kind) >= |BuiltinTableAsWritten|
  {
    match t
    case Builtin(k) =>
      if Ordinal(k) < |BuiltinTableAsWritten| then Some(BuiltinTableAsWritten[Ordinal(k)]) else None
    case _ => Some(t.javaName)
  }

  /** The builtin `Value` kind is the one kind the source's table has no
      entry for: a dictionary whose key or value type is `Value` makes
      typeToObjectString read past the end of the table. */
  lemma ValueKindReadsPastTable()
    ensures forall k: BuiltinKind :: TypeToObjectStringAsWritten(Builtin(k)).None? <==> k == KindValue
  {
    forall k: BuiltinKind ensures TypeToObjectStringAsWritten(Builtin(k)).None? <==> k == KindValue {
      assert |BuiltinTableAsWritten| == 11;
    }
  }

  /** The Java class that boxes a builtin kind. The Java-compat mapping
      maps both `Object` and `Value` to Ice.Object. */
  function BoxedName(k: BuiltinKind): string
  {
    match k
    case KindByte => "java.lang.Byte"
    case KindBool => "java.lang.Boolean"
    case KindShort => "java.lang.Short"
    case KindInt => "java.lang.Integer"
    case KindLong => "java.lang.Long"
    case KindFloat => "java.lang.Float"
    case KindDouble => "java.lang.Double"
    case KindString => "java.lang.String"
    case KindObject => "Ice.Object"
    case KindObjectProxy => "Ice.ObjectPrx"
    case KindLocalObject => "Ice.LocalObject"
    case KindValue => "Ice.Object"
  }

  /** typeToObjectString with a table entry for every builtin kind. It
      agrees with the source wherever the source's table has an entry. */
  function TypeToObjectString(t: TypeDescriptor): (r: string)
    ensures TypeToObjectStringAsWritten(t).Some? ==> r == TypeToObjectStringAsWritten(t).value
    ensures t.Builtin? ==> r == BoxedName(t.kind)
    ensures !t.Builtin? ==> r == t.javaName
  {
    match t
    case Builtin(k) => BoxedName(k)
    case _ => t.javaName
  }

  /** The builtin kinds whose Java mapping is a primitive type, and which
      therefore need boxing to be used as a generic type argument. */
  predicate IsPrimitive(t: TypeDescriptor)
  {
    t.Builtin? && t.kind in {KindByte, KindBool, KindShort, KindInt, KindLong, KindFloat, KindDouble}
  }

  /** varToObject: the Java expression that boxes `param` of type `t`. */
  function VarToObject(t: TypeDescriptor, param: string): (r: string)
    ensures IsPrimitive(t) ==> r == TypeToObjectString(t) + ".valueOf(" + param + ")"
    ensures !IsPrimitive(t) ==> r == param
  {
    if t.Builtin? then
      match t.kind
      case KindByte => "java.lang.Byte" + ".valueOf(" + param + ")"
      case KindBool => "java.lang.Boolean" + ".valueOf(" + param + ")"
      case KindShort => "java.lang.Short" + ".valueOf(" + param + ")"
      case KindInt => "java.lang.Integer" + ".valueOf(" + param + ")"
      case KindLong => "java.lang.Long" + ".valueOf(" + param + ")"
      case KindFloat => "java.lang.Float" + ".valueOf(" + param + ")"
      case KindDouble => "java.lang.Double" + ".valueOf(" + param + ")"
      case _ => param
    else param
  }

  /** The Java primitive type a primitive builtin kind maps to. */
  function PrimitiveName(k: BuiltinKind): string
  {
    match k
    case KindByte => "byte"
    case KindBool => "boolean"
    case KindShort => "short"
    case KindInt => "int"
    case KindLong => "long"
    case KindFloat => "float"
    case KindDouble => "double"
    case _ => ""
  }

  /** objectToVar: the Java expression that unboxes `param` of type `t`. */
  function ObjectToVar(t: TypeDescriptor, param: string): (r: string)
    ensures IsPrimitive(t) ==> r == param + "." + PrimitiveName(t.kind) + "Value()"
    ensures !IsPrimitive(t) ==> r == param
  {
    if t.Builtin? then
      match t.kind
      case KindByte => param + "." + "byte" + "Value()"
      case KindBool => param + "." + "boolean" + "Value()"
      case KindShort => param + "." + "short" + "Value()"
      case KindInt => param + "." + "int" + "Value()"
      case KindLong => param + "." + "long" + "Value()"
      case KindFloat => param + "." + "float" + "Value()"
      case KindDouble => param + "." + "double" + "Value()"
      case _ => param
    else param
  }

  /** Boxing and unboxing apply to exactly the same types: an expression
      is left alone by varToObject exactly when objectToVar leaves it
      alone, and that is exactly when the type is not primitive. */
  lemma BoxingMatchesUnboxing(t: TypeDescriptor, param: string)
    ensures VarToObject(t, param) == param <==> !IsPrimitive(t)
    ensures ObjectToVar(t, param) == param <==> !IsPrimitive(t)
  {
    if IsPrimitive(t) {
      assert |VarToObject(t, param)| > |param|;
      assert |ObjectToVar(t, param)| > |param|;
    }
  }

  /** The position of the last occurrence of `c` in `s`, as
      string::rfind returns it. */
  function LastIndexOf(s: string, c: char): (r: Option<nat>)
    ensures r.None? <==> c !in s
    ensures r.Some? ==> r.value < |s| && s[r.value] == c && c !in s[r.value + 1..]
  {
    if s == [] then None
    else if s[|s| - 1] == c then Some(|s| - 1)
    else
      var r := LastIndexOf(s[..|s| - 1], c);
      assert s[..|s| - 1] + [s[|s| - 1]] == s;
      assert r.Some? ==> s[r.value + 1..] == s[..|s| - 1][r.value + 1..] + [s[|s| - 1]];
      r
  }

  /** The generated class name: a dictionary or index name may include a
      package, and the class is named by the part after the last dot. */
  function ShortName(name: string): (r: string)
    ensures '.' !in r
    ensures '.' !in name ==> r == name
    ensures '.' in name ==> |r| < |name| && name[|name| - |r| - 1] == '.' && name[|name| - |r|..] == r
  {
    match LastIndexOf(name, '.')
    case None => name
    case Some(pos) => name[pos + 1..]
  }

  /** A package-qualified name yields the unqualified class name. */
  lemma ShortNameOfQualified(package: string, simple: string)
    requires '.' !in simple
    ensures ShortName(package + "." + simple) == simple
  {
    var s := package + "." + simple;
    var r := ShortName(s);
    assert s[|package|] == '.';
    assert '.' in s;
  }

  /** C's toupper in the "C" locale. */
  function ToUpper(c: char): (u: char)
    ensures 'a' <= c <= 'z' ==> 'A' <= u <= 'Z' && u as int == c as int - 32
    ensures !('a' <= c <= 'z') ==> u == c
  {
    if 'a' <= c <= 'z' then (c as int - 32) as char else c
  }

  /** The capitalised member name used for generated index classes and
      methods: the member with its first character upper-cased. */
  function Capitalize(member: string): (r: string)
    requires member != []
    ensures |r| == |member| && r[1..] == member[1..]
    ensures r[0] == ToUpper(member[0])
  {
    [ToUpper(member[0])] + member[1..]
  }
}
