/**
 * The struct-tag reading of hw5_codegen's generator: parseTags splits an
 * `apivalidator:"..."` tag into its comma-separated settings, the get*
 * helpers look a setting up by its key, and getFieldParams collects the
 * settings of every field of a struct. The go/ast tree is reduced to the
 * three things the generator reads from a field (its type name, its names,
 * its tag); ToSnakeCase is a parameter.
 */
module Codegen {
  import opened Wrappers
  import opened GoStrings

  const QuoteChars: set<char> := {'"', '`'}

  /** The tag with its first "apivalidator:" removed, trimmed and unquoted. */
  function CleanTag(tag: string): string {
    RemoveChars(TrimSpace(ReplaceFirst(tag, "apivalidator:", "")), QuoteChars)
  }

  /** parseTags: the comma-separated settings of a tag; there is always at
      least one, and no quote or backquote is left in any. */
  function ParseTags(tag: string): (r: seq<string>)
    ensures |r| >= 1
    ensures forall k :: 0 <= k < |r| ==> '"' !in r[k] && '`' !in r[k]
  {
    var clean := CleanTag(tag);
    PartsKeepOut(clean, ',', '"');
    PartsKeepOut(clean, ',', '`');
    Split(clean, ',')
  }

  /** Characters kept out of a string are kept out of its parts. */
  lemma PartsKeepOut(s: string, sep: char, c: char)
    requires forall k :: 0 <= k < |s| ==> s[k] != c
    ensures forall k :: 0 <= k < |Split(s, sep)| ==> c !in Split(s, sep)[k]
  {
    SplitChars(s, sep);
    assert c !in s;
  }

  /** Joining the settings with "," gives back the cleaned tag. */
  lemma ParseTagsJoin(tag: string)
    ensures Join(ParseTags(tag), ",") == CleanTag(tag)
  {
    JoinSplit(CleanTag(tag), ',');
  }

  /** The settings are the cleaned tag's comma-free pieces: none holds a comma. */
  lemma ParseTagsNoComma(tag: string)
    ensures forall k :: 0 <= k < |ParseTags(tag)| ==> ',' !in ParseTags(tag)[k]
  {
    SplitChars(CleanTag(tag), ',');
  }

  // ---------------------------------------------------------------------
  // Looking a setting up by its key.

  /** The position of the first setting that contains `target`. */
  function FirstContaining(params: seq<string>, target: string): (r: Option<nat>)
    ensures r.None? ==> forall k :: 0 <= k < |params| ==> !Contains(params[k], target)
    ensures r.Some? ==> r.value < |params| && Contains(params[r.value], target)
    ensures r.Some? ==> forall m :: 0 <= m < r.value ==> !Contains(params[m], target)
  {
    if params == [] then None
    else if Contains(params[0], target) then Some(0)
    else match FirstContaining(params[1..], target)
      case None => None
      case Some(k) => Some(k + 1)
  }

  /** The value the get* helpers return: the first setting that contains the
      key, with the key's first occurrence removed; `fallback` when none does. */
  function TagValue(params: seq<string>, target: string, fallback: string): string {
    match FirstContaining(params, target)
    case None => fallback
    case Some(k) => ReplaceFirst(params[k], target, "")
  }

  /** The search loop shared by getMax, getMin, getEnum, getDefaultName and getParamName. */
  method FindTagValue(params: seq<string>, target: string, fallback: string) returns (r: string)
    ensures r == TagValue(params, target, fallback)
  {
    for i := 0 to |params|
      invariant FirstContaining(params, target) == Shift(FirstContaining(params[i..], target), i)
    {
      assert params[i..][1..] == params[i + 1..];
      if Contains(params[i], target) {
        return ReplaceFirst(params[i], target, "");
      }
    }
    return fallback;
  }

  function Shift(r: Option<nat>, offset: nat): Option<nat> {
    match r
    case None => None
    case Some(k) => Some(k + offset)
  }

  method GetMax(params: seq<string>) returns (r: string)
    ensures r == TagValue(params, "max=", "")
  {
    r := FindTagValue(params, "max=", "");
  }

  method GetMin(params: seq<string>) returns (r: string)
    ensures r == TagValue(params, "min=", "")
  {
    r := FindTagValue(params, "min=", "");
  }

  method GetEnum(params: seq<string>) returns (r: string)
    ensures r == TagValue(params, "enum=", "")
  {
    r := FindTagValue(params, "enum=", "");
  }

  method GetDefaultName(params: seq<string>) returns (r: string)
    ensures r == TagValue(params, "default=", "")
  {
    r := FindTagValue(params, "default=", "");
  }

  /** The query parameter's name: the "paramname=" setting, or the field's
      name in snake case. */
  method GetParamName(name: string, params: seq<string>, toSnakeCase: string -> string) returns (r: string)
    ensures r == TagValue(params, "paramname=", toSnakeCase(name))
  {
    r := FindTagValue(params, "paramname=", toSnakeCase(name));
  }

  /** With no setting containing the key, the helpers return their fallback. */
  lemma TagValueAbsent(params: seq<string>, target: string, fallback: string)
    requires forall k :: 0 <= k < |params| ==> !Contains(params[k], target)
    ensures TagValue(params, target, fallback) == fallback
  {
  }

  /** Otherwise they return the first matching setting with the key removed once. */
  lemma TagValueFirst(params: seq<string>, target: string, fallback: string, k: nat)
    requires k < |params| && Contains(params[k], target)
    requires forall m :: 0 <= m < k ==> !Contains(params[m], target)
    ensures TagValue(params, target, fallback) == ReplaceFirst(params[k], target, "")
  {
    var r := FirstContaining(params, target);
    assert r.Some?;
    assert !(r.value < k);
    assert !(r.value > k);
  }

  /** A setting that starts with its key yields what follows the key: "min=10" gives "10". */
  lemma KeyPrefixStripped(target: string, rest: string)
    ensures ReplaceFirst(target + rest, target, "") == rest
  {
    var s := target + rest;
    assert s[..|target|] == target;
    assert s[|target|..] == rest;
  }

  /** getRequired: some setting contains "required". */
  method GetRequired(params: seq<string>) returns (r: bool)
    ensures r <==> exists k :: 0 <= k < |params| && Contains(params[k], "required")
  {
    for i := 0 to |params|
      invariant forall k :: 0 <= k < i ==> !Contains(params[k], "required")
    {
      if Contains(params[i], "required") {
        return true;
      }
    }
    return false;
  }

  // ---------------------------------------------------------------------
  // Structs.

  /** What the generator reads from an ast.Field: the name of its type when
      that is a plain identifier, its names, and its tag literal if any. */
  datatype AstField = AstField(typeName: Option<string>, names: seq<string>, tag: Option<string>)

  datatype FieldParams = FieldParams(
    required: bool, typeName: string, jsonName: string, name: string,
    min: string, max: string, enum: string, default: string)

  datatype StrctFields = StrctFields(name: string, params: seq<FieldParams>)

  /** isParamStruct: the first field carries a tag mentioning "apivalidator:". */
  predicate IsParamStruct(fields: seq<AstField>) {
    if |fields| < 1 then false
    else if fields[0].tag.None? then false
    else Contains(fields[0].tag.value, "apivalidator:")
  }

  /** Only the first field decides; a struct without fields, or whose first
      field is untagged, is not a parameter struct. */
  lemma IsParamStructFirstField(fields: seq<AstField>, more: seq<AstField>)
    requires |fields| >= 1
    ensures IsParamStruct(fields + more) == IsParamStruct(fields[..1])
    ensures fields[0].tag.None? ==> !IsParamStruct(fields + more)
    ensures !IsParamStruct([])
  {
    assert (fields + more)[0] == fields[..1][0];
  }

  /** getFieldParams reads a field without panicking only when its type is a
      plain identifier, it has a name and it carries a tag. */
  predicate Readable(f: AstField) {
    f.typeName.Some? && |f.names| >= 1 && f.tag.Some?
  }

  /** The FieldParams getFieldParams builds for one readable field. */
  function FieldParamsOf(f: AstField, toSnakeCase: string -> string): FieldParams
    requires Readable(f)
  {
    var params := ParseTags(f.tag.value);
    FieldParams(
      FirstContaining(params, "required").Some?,
      f.typeName.value,
      TagValue(params, "paramname=", toSnakeCase(f.names[0])),
      f.names[0],
      TagValue(params, "min=", ""),
      TagValue(params, "max=", ""),
      TagValue(params, "enum=", ""),
      TagValue(params, "default=", ""))
  }

  /** The body of getFieldParams' loop: the settings of one field. */
  method ReadField(field: AstField, toSnakeCase: string -> string) returns (fParams: FieldParams)
    requires Readable(field)
    ensures fParams == FieldParamsOf(field, toSnakeCase)
  {
    var params := ParseTags(field.tag.value);
    var required := GetRequired(params);
    var jsonName := GetParamName(field.names[0], params, toSnakeCase);
    var default := GetDefaultName(params);
    var enum := GetEnum(params);
    var min := GetMin(params);
    var max := GetMax(params);
    fParams := FieldParams(required, field.typeName.value, jsonName, field.names[0], min, max, enum, default);
  }

  /** `read` applied to each of `xs`, in order; None when `ok` fails for some element. */
  function ReadAll<A, B>(xs: seq<A>, ok: A -> bool, read: A -> B): Option<seq<B>> {
    if xs == [] then Some([])
    else
      var last := xs[|xs| - 1];
      match ReadAll(xs[..|xs| - 1], ok, read)
      case None => None
      case Some(ps) => if ok(last) then Some(ps + [read(last)]) else None
  }

  /** One result per element, in order, unless some element fails `ok`. */
  lemma {:induction false} ReadAllInOrder<A, B>(xs: seq<A>, ok: A -> bool, read: A -> B)
    ensures ReadAll(xs, ok, read).None? <==> exists k :: 0 <= k < |xs| && !ok(xs[k])
    ensures ReadAll(xs, ok, read).Some? ==>
              var ps := ReadAll(xs, ok, read).value;
              |ps| == |xs| && forall k :: 0 <= k < |xs| ==> ps[k] == read(xs[k])
  {
    if xs != [] {
      var init := xs[..|xs| - 1];
      ReadAllInOrder(init, ok, read);
      assert forall k :: 0 <= k < |init| ==> init[k] == xs[k];
    }
  }

  /** FieldParamsOf, for any field; a field that cannot be read gets empty settings, never used. */
  function FieldReader(toSnakeCase: string -> string): AstField -> FieldParams {
    f => if Readable(f) then FieldParamsOf(f, toSnakeCase) else FieldParams(false, "", "", "", "", "", "", "")
  }

  /** getFieldParams' result: one FieldParams per field, in declaration order,
      or a panic (None) when some field cannot be read. */
  lemma GetFieldParamsInOrder(fields: seq<AstField>, toSnakeCase: string -> string)
    ensures ReadAll(fields, Readable, FieldReader(toSnakeCase)).None? <==>
              exists k :: 0 <= k < |fields| && !Readable(fields[k])
    ensures ReadAll(fields, Readable, FieldReader(toSnakeCase)).Some? ==>
              var ps := ReadAll(fields, Readable, FieldReader(toSnakeCase)).value;
              |ps| == |fields| &&
              forall k :: 0 <= k < |fields| ==> ps[k] == FieldParamsOf(fields[k], toSnakeCase)
  {
    ReadAllInOrder(fields, Readable, FieldReader(toSnakeCase));
  }

  /** getFieldParams: the struct's name and the FieldParams of its fields
      (see GetFieldParamsInOrder); None when a field cannot be read (the generator
      panics). */
  method GetFieldParams(sName: string, fields: seq<AstField>, toSnakeCase: string -> string)
    returns (r: Option<StrctFields>)
    ensures r == (match ReadAll(fields, Readable, FieldReader(toSnakeCase))
                  case None => None
                  case Some(ps) => Some(StrctFields(sName, ps)))
  {
    var collected: seq<FieldParams> := [];
    for i := 0 to |fields|
      invariant ReadAll(fields[..i], Readable, FieldReader(toSnakeCase)) == Some(collected)
    {
      assert fields[..i + 1][..i] == fields[..i];
      if !Readable(fields[i]) {
        UnreadableStays(fields, i, toSnakeCase);
        return None;
      }
      var fParams := ReadField(fields[i], toSnakeCase);
      collected := collected + [fParams];
    }
    assert fields[..|fields|] == fields;
    return Some(StrctFields(sName, collected));
  }

  /** Once a field cannot be read, neither can the struct. */
  lemma {:induction false} UnreadableStays(fields: seq<AstField>, i: nat, toSnakeCase: string -> string)
    requires i < |fields| && !Readable(fields[i])
    ensures ReadAll(fields, Readable, FieldReader(toSnakeCase)).None?
  {
    ReadAllInOrder(fields, Readable, FieldReader(toSnakeCase));
  }
}
