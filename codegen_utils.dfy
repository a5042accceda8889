/**
 * pkg/codegen/utils.go: the helpers the code generator and its templates use
 * to turn OpenAPI names and schemas into Go identifiers and type names.
 * Character case is ASCII only.
 */
module CodegenUtils {
  import opened Wrappers
  import opened GoText

  /** toUpper: strings.ToUpper. */
  function UpperName(s: string): (r: string)
    ensures |r| == |s| && forall i :: 0 <= i < |s| ==> r[i] == UpperChar(s[i])
    ensures forall i :: 0 <= i < |r| ==> !IsLower(r[i])
  {
    ToUpper(s)
  }

  predicate IsCamelSeparator(c: char) { c == '_' || c == '-' }

  /**
   * What toCamel appends for the rest s of its input, given its capNext flag:
   * a character met with capNext set is upper-cased (a separator included)
   * and clears the flag; otherwise a separator is dropped and sets the flag,
   * and any other character is copied.
   */
  function CamelFrom(capNext: bool, s: string): string
    decreases s
  {
    if s == [] then []
    else if capNext then [UpperChar(s[0])] + CamelFrom(false, s[1..])
    else if IsCamelSeparator(s[0]) then CamelFrom(true, s[1..])
    else [s[0]] + CamelFrom(false, s[1..])
  }

  /** The toCamel of s. */
  function Camel(s: string): string
  {
    CamelFrom(true, s)
  }

  /** toCamel: the rune loop accumulating result and toggling capNext. */
  method ToCamel(s: string) returns (result: string)
    ensures result == Camel(s)
  {
    result := "";
    var capNext := true;
    var i := 0;
    while i < |s|
      invariant 0 <= i <= |s|
      invariant result + CamelFrom(capNext, s[i..]) == Camel(s)
    {
      var v := s[i];
      assert s[i..][1..] == s[i + 1..];
      if capNext {
        result := result + [UpperChar(v)];
        capNext := false;
      } else if v == '_' || v == '-' {
        capNext := true;
      } else {
        result := result + [v];
      }
      i := i + 1;
    }
    assert s[i..] == [];
  }

  /** The output is never longer than the input, and no longer than the input minus its dropped separators. */
  lemma {:induction false} CamelFromLength(capNext: bool, s: string)
    ensures |CamelFrom(capNext, s)| <= |s|
    ensures !capNext && s != [] && IsCamelSeparator(s[0]) ==> |CamelFrom(capNext, s)| < |s|
    decreases s
  {
    if s != [] {
      CamelFromLength(!capNext && IsCamelSeparator(s[0]), s[1..]);
    }
  }

  /** The first character is upper-cased, whatever it is. */
  lemma CamelFirst(s: string)
    requires s != []
    ensures Camel(s) != [] && Camel(s)[0] == UpperChar(s[0])
    ensures |Camel(s)| <= |s|
  {
    CamelFromLength(false, s[1..]);
  }

  /**
   * A separator out of a capitalising position is dropped and the next
   * character upper-cased; a separator in a capitalising position is kept.
   */
  lemma CamelSeparators(c: char, d: char, t: string)
    requires IsCamelSeparator(c)
    ensures CamelFrom(false, [c, d] + t) == [UpperChar(d)] + CamelFrom(false, t)
    ensures CamelFrom(true, [c] + t) == [c] + CamelFrom(false, t)
  {
    assert ([c, d] + t)[1..] == [d] + t;
    assert ([d] + t)[1..] == t;
    assert ([c] + t)[1..] == t;
  }

  /** Without separators, toCamel only upper-cases the first character. */
  lemma {:induction false} CamelNoSeparators(capNext: bool, s: string)
    requires forall i :: 0 <= i < |s| ==> !IsCamelSeparator(s[i])
    ensures CamelFrom(capNext, s) == if s == [] then [] else
      [if capNext then UpperChar(s[0]) else s[0]] + s[1..]
    decreases s
  {
    if s != [] {
      CamelNoSeparators(false, s[1..]);
      if |s[1..]| > 0 {
        assert [s[1..][0]] + s[1..][1..] == s[1..];
      }
    }
  }

  /** A worked instance: "a__b" gives "A_b". */
  lemma CamelExample()
    ensures Camel("a__b") == "A_b"
  {
    var t := "b";
    assert CamelFrom(false, t) == t by { CamelNoSeparators(false, t); }
    assert "_b"[1..] == t && "__b"[1..] == "_b" && "a__b"[1..] == "__b";
    assert CamelFrom(true, "_b") == "_b";
    assert CamelFrom(false, "__b") == "_b";
  }

  const SchemaPrefix := "#/components/schemas/"

  /** cutPrefix: one leading "#/components/schemas/" removed, if present. */
  function CutPrefix(s: string): (r: string)
    ensures SchemaPrefix <= s ==> s == SchemaPrefix + r
    ensures !(SchemaPrefix <= s) ==> r == s
  {
    if SchemaPrefix <= s then s[|SchemaPrefix|..] else s
  }

  /** The reference to a named component cuts back to the name, and only one prefix is removed. */
  lemma CutPrefixName(name: string)
    ensures CutPrefix(SchemaPrefix + name) == name
    ensures CutPrefix(SchemaPrefix + SchemaPrefix + name) == SchemaPrefix + name
  {
    assert SchemaPrefix <= SchemaPrefix + name;
    assert SchemaPrefix + SchemaPrefix + name == SchemaPrefix + (SchemaPrefix + name);
    assert SchemaPrefix <= SchemaPrefix + (SchemaPrefix + name);
  }

  // ---------------------------------------------------------------- schemas

  /** An *openapi3.SchemaRef: its $ref and its possibly nil Value. */
  datatype SchemaRef = SchemaRef(ref: string, value: Option<Schema>)

  /** The parts of an *openapi3.Schema the generator reads. */
  datatype Schema = Schema(types: seq<string>, items: Option<SchemaRef>, properties: map<string, SchemaRef>)

  /**
   * goType does not panic: every schema it reaches has a non-empty type list
   * (Type.Slice()[0] is taken unguarded).
   */
  predicate Typed(schema: Option<SchemaRef>)
  {
    match schema
    case None => true
    case Some(r) =>
      match r.value
      case None => true
      case Some(s) => |s.types| > 0 && (s.types[0] == "array" ==> Typed(s.items))
  }

  /** goType: the Go type spelled for a schema. */
  function GoType(schema: Option<SchemaRef>): string
    requires Typed(schema)
  {
    match schema
    case None => "interface{}"
    case Some(r) =>
      match r.value
      case None => "interface{}"
      case Some(s) =>
        match s.types[0]
        case "string" => "string"
        case "integer" => "int"
        case "boolean" => "bool"
        case "array" => if s.items.Some? then "[]" + GoType(s.items) else "[]interface{}"
        case "object" => if r.ref != "" then Camel(CutPrefix(r.ref)) else "struct{}"
        case _ => "interface{}"
  }

  /** The number of nested array schemas, through their items. */
  function ArrayDepth(schema: Option<SchemaRef>): nat
    requires Typed(schema)
  {
    if schema.Some? && schema.value.value.Some? && schema.value.value.value.types[0] == "array"
       && schema.value.value.value.items.Some?
    then 1 + ArrayDepth(schema.value.value.value.items)
    else 0
  }

  /** The schema array nesting ends at. */
  function ElementSchema(schema: Option<SchemaRef>): (e: Option<SchemaRef>)
    requires Typed(schema)
    ensures Typed(e)
  {
    if schema.Some? && schema.value.value.Some? && schema.value.value.value.types[0] == "array"
       && schema.value.value.value.items.Some?
    then ElementSchema(schema.value.value.value.items)
    else schema
  }

  /** Nested arrays become one "[]" per level before the element type. */
  lemma {:induction false} GoTypeArrays(schema: Option<SchemaRef>)
    requires Typed(schema)
    ensures GoType(schema) == Repeat("[]", ArrayDepth(schema)) + GoType(ElementSchema(schema))
  {
    if schema.Some? && schema.value.value.Some? && schema.value.value.value.types[0] == "array"
       && schema.value.value.value.items.Some? {
      var items := schema.value.value.value.items;
      GoTypeArrays(items);
      assert Repeat("[]", 1 + ArrayDepth(items)) == "[]" + Repeat("[]", ArrayDepth(items));
    } else {
      assert Repeat("[]", 0) == [];
    }
  }

  /**
   * The mapping of goType: a nil schema or value gives "interface{}"; the
   * three scalar names their Go types; any other name "interface{}"; an array
   * without items "[]interface{}"; an object its component name, or
   * "struct{}" without a $ref.
   */
  lemma GoTypeCases(r: SchemaRef, s: Schema)
    requires r.value == Some(s) && Typed(Some(r))
    ensures GoType(None) == "interface{}" && GoType(Some(r.(value := None))) == "interface{}"
    ensures s.types[0] == "string" ==> GoType(Some(r)) == "string"
    ensures s.types[0] == "integer" ==> GoType(Some(r)) == "int"
    ensures s.types[0] == "boolean" ==> GoType(Some(r)) == "bool"
    ensures s.types[0] !in {"string", "integer", "boolean", "array", "object"} ==> GoType(Some(r)) == "interface{}"
    ensures s.types[0] == "array" && s.items.None? ==> GoType(Some(r)) == "[]interface{}"
    ensures s.types[0] == "object" && r.ref == "" ==> GoType(Some(r)) == "struct{}"
    ensures s.types[0] == "object" && r.ref != "" ==> GoType(Some(r)) == Camel(CutPrefix(r.ref))
  {
  }
}
