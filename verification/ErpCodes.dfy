/** ERP parameter codes: the recursive normaliser and the `code · description` option printer it undoes. */
module ErpCodes {
  import opened Text

  const DOT: char := '\U{B7}'

  /** A text that is already a code: trimmed, not empty, without the separator. */
  predicate IsCode(s: string) {
    s != "" && Trimmed(s) && DOT !in s
  }

  /** `String(n)` of a finite number is such a text. */
  type NumberText = s: string | IsCode(s) witness "0"

  /** A JSON-like value as it reaches the server. */
  datatype Js =
    | Undefined
    | Null
    | Bool(b: bool)
    | Number(text: NumberText)
    | NotFinite
    | Str(s: string)
    | Array(items: seq<Js>)
    | Object(fields: seq<(string, Js)>)

  /** `record[key]`: the last field of that name, `undefined` when there is none. */
  function Field(fields: seq<(string, Js)>, key: string): (v: Js)
    ensures v == Undefined || exists i | 0 <= i < |fields| :: v == fields[i].1
  {
    if fields == [] then Undefined
    else if fields[|fields| - 1].0 == key then fields[|fields| - 1].1
    else Field(fields[..|fields| - 1], key)
  }

  function CodeKeys(): seq<string> {
    ["code", "codigo", "CODIGO", "value", "id", "ID", "FORMA", "CODCONDREC", "TABELA", "CODTABELA", "TABELA_PRECO",
     "CODFILIAL", "CODOPER", "label", "name"]
  }

  /** `s.split("·", 1)[0]`. */
  function BeforeDot(s: string): (r: string)
    ensures DOT !in r && r <= s
  {
    if s == "" || s[0] == DOT then "" else [s[0]] + BeforeDot(s[1..])
  }

  function NormalizeText(s: string): string {
    var trimmed := Trim(s);
    if trimmed == "" then "" else Trim(BeforeDot(trimmed))
  }

  function Normalize(value: Js): string
    decreases value, 16
  {
    match value
    case Number(text) => text
    case Str(s) => NormalizeText(s)
    case Object(fields) => FirstCode(value, CodeKeys())
    case _ => ""
  }

  /** The key loop: the first key whose value normalises to something. */
  function FirstCode(value: Js, keys: seq<string>): string
    requires value.Object?
    decreases value, |keys|
  {
    if keys == [] then ""
    else
      var v := Field(value.fields, keys[0]);
      var code := if v == Undefined then "" else Normalize(v);
      if code != "" then code else FirstCode(value, keys[1..])
  }

  /** Whatever the nesting, the result is empty or a clean code. */
  lemma {:induction false} NormalizesToCode(value: Js)
    ensures Normalize(value) == "" || IsCode(Normalize(value))
    decreases value, 16
  {
    match value
    case Object(_) =>
      FirstIsCode(value, CodeKeys());
    case Str(s) =>
      TextIsCode(s);
    case _ =>
  }

  lemma TextIsCode(s: string)
    ensures NormalizeText(s) == "" || IsCode(NormalizeText(s))
  {
    TrimIsTrimmed(BeforeDot(Trim(s)));
    TrimIsPart(BeforeDot(Trim(s)));
  }

  lemma {:induction false} FirstIsCode(value: Js, keys: seq<string>)
    requires value.Object?
    ensures FirstCode(value, keys) == "" || IsCode(FirstCode(value, keys))
    decreases value, |keys|
  {
    if keys != [] {
      var v := Field(value.fields, keys[0]);
      if v != Undefined {
        NormalizesToCode(v);
      }
      FirstIsCode(value, keys[1..]);
    }
  }

  lemma {:induction false} BeforeDotPlain(s: string, rest: string)
    requires DOT !in s
    ensures BeforeDot(s + [DOT] + rest) == s && BeforeDot(s) == s
  {
    if s != "" {
      BeforeDotPlain(s[1..], rest);
      assert (s + [DOT] + rest)[1..] == s[1..] + [DOT] + rest;
      assert s == [s[0]] + s[1..];
    } else {
      assert s + [DOT] + rest == [DOT] + rest;
    }
  }

  /** A code normalises to itself ... */
  lemma CodeIsFixed(code: string)
    requires IsCode(code)
    ensures NormalizeText(code) == code
  {
    TrimIsTrimmed(code);
    BeforeDotPlain(code, "");
  }

  /** ... so the normaliser is idempotent on every value. */
  lemma Idempotent(value: Js)
    ensures Normalize(Str(Normalize(value))) == Normalize(value)
  {
    NormalizesToCode(value);
    if Normalize(value) != "" {
      CodeIsFixed(Normalize(value));
    }
  }

  // ----- The option printer -----

  /** `String(value)`. */
  function StringOf(value: Js): string
    decreases value, 0
  {
    match value
    case Undefined => "undefined"
    case Null => "null"
    case Bool(b) => if b then "true" else "false"
    case Number(text) => text
    case NotFinite => "NaN"
    case Str(s) => s
    case Array(items) => Joined(value, 0)
    case Object(_) => "[object Object]"
  }

  function Joined(value: Js, from: nat): string
    requires value.Array? && from <= |value.items|
    decreases value, 0, |value.items| - from
  {
    if from == |value.items| then ""
    else
      var v := value.items[from];
      (if from > 0 then "," else "") + (if v.Undefined? || v.Null? then "" else StringOf(v)) + Joined(value, from + 1)
  }

  function GetTextValue(value: Js): string {
    if value.Undefined? || value.Null? then "" else Trim(StringOf(value))
  }

  function ReadFirstText(source: Js, keys: seq<string>): string {
    if keys == [] then ""
    else
      var value := GetTextValue(if source.Object? then Field(source.fields, keys[0]) else Undefined);
      if value != "" then value else ReadFirstText(source, keys[1..])
  }

  /** One entry of the key table: where a reference scope keeps its code and its name, and what a bare code
      is called. */
  datatype Keys = Keys(code: seq<string>, name: seq<string>, fallback: map<string, string>)

  datatype ErpOption = ErpOption(id: string, code: string, name: string, description: string, labelText: string,
                                 value: string)

  function NormalizeCodeKey(value: string): string {
    if StripZeros(Trim(value)) != "" then StripZeros(Trim(value)) else Trim(value)
  }

  function FallbackDescription(keys: Keys, code: string): string {
    if NormalizeCodeKey(code) in keys.fallback then keys.fallback[NormalizeCodeKey(code)] else ""
  }

  /** `rawDescription.startsWith(`${code} ·`)`. */
  predicate IsOwnLabel(code: string, description: string) {
    code + [' ', DOT] <= description
  }

  /** `description.slice(description.indexOf("·") + 1)`. */
  function AfterDot(s: string): string {
    if s == "" then "" else if s[0] == DOT then s[1..] else AfterDot(s[1..])
  }

  function MappedDescription(code: string, description: string): string {
    if IsOwnLabel(code, description) then Trim(AfterDot(description)) else description
  }

  function Describe(keys: Keys, code: string, rawDescription: string): string {
    var mapped := MappedDescription(code, rawDescription);
    if mapped != "" then mapped else FallbackDescription(keys, code)
  }

  function Label(code: string, description: string): string {
    code + [' ', DOT, ' '] + if description != "" then description else code
  }

  function ToReferenceOption(keys: Keys, row: Js): Option<ErpOption> {
    var code := NormalizeText(ReadFirstText(row, keys.code));
    if !(row.Object? || row.Array?) || code == "" then None
    else
      var description := Describe(keys, code, ReadFirstText(row, keys.name));
      var id := ReadFirstText(row, ["id", "ID", "uuid", "UUID"]);
      Some(ErpOption(if id != "" then id else code, code, if description != "" then description else code,
                     description, Label(code, description), code))
  }

  function FirstArray(payload: Js, keys: seq<string>): seq<Js>
    requires payload.Object?
  {
    if keys == [] then []
    else if Field(payload.fields, keys[0]).Array? then Field(payload.fields, keys[0]).items
    else FirstArray(payload, keys[1..])
  }

  function ToArray(payload: Js): seq<Js> {
    match payload
    case Array(items) => items
    case Object(_) => FirstArray(payload, ["items", "data", "rows", "results", "content"])
    case _ => []
  }

  function OptionsOf(keys: Keys, rows: seq<Js>): seq<ErpOption> {
    if rows == [] then []
    else
      var first := ToReferenceOption(keys, rows[0]);
      (if first.Some? then [first.value] else []) + OptionsOf(keys, rows[1..])
  }

  function ToReferenceOptions(keys: Keys, payload: Js): seq<ErpOption> {
    OptionsOf(keys, ToArray(payload))
  }

  // ----- The normaliser undoes the printer -----

  lemma DotIsNoSpace()
    ensures !IsSpace(DOT) && IsSpace(' ')
  {
  }

  /** Trimming a text that starts `code ·` leaves that start alone. */
  lemma TrimKeepsPrefix(code: string, rest: string)
    requires IsCode(code)
    ensures code + [' ', DOT] <= Trim(code + [' ', DOT] + rest)
  {
    var s := code + [' ', DOT] + rest;
    DotIsNoSpace();
    hide IsSpace;
    assert s[0] == code[0];
    assert TrimStart(s) == s;
    assert s[|code| + 1] == DOT;
    TrimEndKeeps(s, |code| + 1);
    assert s[..|code| + 2] == code + [' ', DOT];
  }

  lemma TrimTrailingSpace(code: string)
    requires Trimmed(code)
    ensures Trim(code + [' ']) == code
  {
    var s := code + [' '];
    DotIsNoSpace();
    hide IsSpace;
    if code == "" {
      assert s[1..] == "";
      assert TrimStart(s) == TrimStart("") == "";
    } else {
      assert s[0] == code[0] && TrimStart(s) == s;
      assert s[..|s| - 1] == code;
      assert TrimEnd(s) == TrimEnd(code) == code;
    }
  }

  /** Whatever follows the separator, the normaliser returns what precedes it. */
  lemma NormalizeUndoesLabel(code: string, rest: string)
    requires IsCode(code)
    ensures NormalizeText(code + [' ', DOT] + rest) == code
  {
    var s := code + [' ', DOT] + rest;
    TrimKeepsPrefix(code, rest);
    var t := Trim(s);
    hide Trim, IsSpace;
    var tail := t[|code| + 2..];
    assert t == (code + [' ']) + [DOT] + tail;
    BeforeDotPlain(code + [' '], tail);
    TrimTrailingSpace(code);
  }

  /** The option as it travels, with the row it was read from. */
  function AsObject(o: ErpOption, raw: Js): Js {
    Object([("id", Str(o.id)), ("code", Str(o.code)), ("name", Str(o.name)), ("description", Str(o.description)),
            ("label", Str(o.labelText)), ("value", Str(o.value)), ("raw", raw)])
  }

  /** Its label, its value and the object itself all normalise to its code. */
  ghost predicate ComesBack(o: ErpOption) {
    && IsCode(o.code)
    && Normalize(Str(o.labelText)) == o.code && Normalize(Str(o.value)) == o.code
    && forall raw :: Normalize(AsObject(o, raw)) == o.code
  }

  /** Whatever the payload and the key table, every option listed comes back to its code. */
  lemma OptionsComeBack(keys: Keys, payload: Js)
    ensures forall o | o in ToReferenceOptions(keys, payload) :: ComesBack(o)
  {
    hide ComesBack;
    forall o | o in ToReferenceOptions(keys, payload) ensures ComesBack(o) {
      RowsComeBack(keys, ToArray(payload), o);
    }
  }

  lemma {:induction false} RowsComeBack(keys: Keys, rows: seq<Js>, o: ErpOption)
    requires o in OptionsOf(keys, rows)
    ensures ComesBack(o)
  {
    hide ComesBack;
    var first := ToReferenceOption(keys, rows[0]);
    if first.Some? && first.value == o {
      OptionComesBack(keys, rows[0]);
    } else {
      RowsComeBack(keys, rows[1..], o);
    }
  }

  lemma OptionComesBack(keys: Keys, row: Js)
    requires ToReferenceOption(keys, row).Some?
    ensures ComesBack(ToReferenceOption(keys, row).value)
  {
    hide FirstCode, AsObject, NormalizeText, ReadFirstText, Describe, Trimmed, FallbackDescription;
    var o := ToReferenceOption(keys, row).value;
    TextIsCode(ReadFirstText(row, keys.code));
    CodeIsFixed(o.code);
    var shown := if o.description != "" then o.description else o.code;
    assert o.labelText == o.code + [' ', DOT] + ([' '] + shown);
    NormalizeUndoesLabel(o.code, [' '] + shown);
    forall raw ensures Normalize(AsObject(o, raw)) == o.code {
      ObjectComesBack(o, raw);
    }
  }

  lemma ObjectComesBack(o: ErpOption, raw: Js)
    requires IsCode(o.code)
    ensures Normalize(AsObject(o, raw)) == o.code
  {
    var fields := AsObject(o, raw).fields;
    assert fields[1].0 == "code" && forall j | 1 < j < |fields| :: fields[j].0 != "code";
    assert fields[1].1 == Str(o.code);
    hide AsObject, IsCode, Normalize;
    FieldAt(fields, 1, "code");
    ObjectWithCode(fields, o.code);
  }

  /** The last field of the name is the one read. */
  lemma {:induction false} FieldAt(fields: seq<(string, Js)>, i: nat, key: string)
    requires i < |fields| && fields[i].0 == key && forall j | i < j < |fields| :: fields[j].0 != key
    ensures Field(fields, key) == fields[i].1
  {
    if i < |fields| - 1 {
      FieldAt(fields[..|fields| - 1], i, key);
    }
  }

  /** Any object whose code field is a code is accepted in place of it. */
  lemma ObjectWithCode(fields: seq<(string, Js)>, code: string)
    requires IsCode(code) && Field(fields, "code") == Str(code)
    ensures Normalize(Object(fields)) == code
  {
    CodeIsFixed(code);
    FirstKeyWins(fields, CodeKeys(), code);
  }

  lemma FirstKeyWins(fields: seq<(string, Js)>, keys: seq<string>, code: string)
    requires keys != [] && Field(fields, keys[0]) == Str(code) && code != "" && NormalizeText(code) == code
    ensures FirstCode(Object(fields), keys) == code
  {
    hide NormalizeText;
  }

  // ----- What is listed -----

  /** The `i`-th key is the first whose field holds a text, `text` once trimmed. */
  predicate FirstHeld(source: Js, keys: seq<string>, i: nat, text: string) {
    && source.Object? && i < |keys| && text != "" && GetTextValue(Field(source.fields, keys[i])) == text
    && forall j | 0 <= j < i :: GetTextValue(Field(source.fields, keys[j])) == ""
  }

  lemma {:induction false} ReadsFirstHeld(source: Js, keys: seq<string>, i: nat, text: string)
    ensures FirstHeld(source, keys, i, text) ==> ReadFirstText(source, keys) == text
  {
    hide GetTextValue, Field;
    if FirstHeld(source, keys, i, text) && i > 0 {
      assert forall j | 0 <= j < i - 1 :: keys[1..][j] == keys[j + 1];
      ReadsFirstHeld(source, keys[1..], i - 1, text);
    }
  }

  lemma {:induction false} ReadsNothing(source: Js, keys: seq<string>)
    ensures ReadFirstText(source, keys) == "" <==>
              !source.Object? || forall j | 0 <= j < |keys| :: GetTextValue(Field(source.fields, keys[j])) == ""
  {
    hide GetTextValue, Field;
    NothingReads();
    if keys != [] {
      ReadsNothing(source, keys[1..]);
      assert forall j | 1 <= j < |keys| :: keys[j] == keys[1..][j - 1];
      assert source.Object? ==> forall j | 0 <= j < |keys| - 1 :: keys[1..][j] == keys[j + 1];
    }
  }

  lemma NothingReads()
    ensures GetTextValue(Undefined) == ""
  {
  }

  /** A row is listed exactly when it is an object whose first text among the code keys normalises to a code: that code
      is its own and its value; its name and label fall back on it when it has no description. */
  lemma ListedExactly(keys: Keys, row: Js)
    ensures ToReferenceOption(keys, row).Some? <==>
              row.Object? && ReadFirstText(row, keys.code) != "" && NormalizeText(ReadFirstText(row, keys.code)) != ""
    ensures ToReferenceOption(keys, row).Some? ==>
              var o := ToReferenceOption(keys, row).value;
              && o.code == NormalizeText(ReadFirstText(row, keys.code)) && o.value == o.code
              && o.description == Describe(keys, o.code, ReadFirstText(row, keys.name))
              && o.name == (if o.description == "" then o.code else o.description)
              && o.labelText == o.code + [' ', DOT, ' '] + o.name
              && (o.id == o.code <==> ReadFirstText(row, ["id", "ID", "uuid", "UUID"]) in ["", o.code])
  {
    ReadsNothing(row, keys.code);
    EmptyIsNoCode();
    hide NormalizeText, ReadFirstText, Describe;
  }

  lemma EmptyIsNoCode()
    ensures NormalizeText("") == ""
  {
  }

  ghost predicate OfSomeRow(keys: Keys, rows: seq<Js>, o: ErpOption) {
    exists row | row in rows :: ToReferenceOption(keys, row) == Some(o)
  }

  /** The options of a payload are exactly those of its rows: none is lost and none made up ... */
  lemma OptionsAreOfRows(keys: Keys, payload: Js)
    ensures forall o :: o in ToReferenceOptions(keys, payload) <==> OfSomeRow(keys, ToArray(payload), o)
  {
    forall o ensures o in ToReferenceOptions(keys, payload) <==> OfSomeRow(keys, ToArray(payload), o) {
      OptionOfRow(keys, ToArray(payload), o);
    }
  }

  lemma {:induction false} OptionOfRow(keys: Keys, rows: seq<Js>, o: ErpOption)
    ensures o in OptionsOf(keys, rows) <==> OfSomeRow(keys, rows, o)
  {
    hide ToReferenceOption;
    if rows != [] {
      OptionOfRow(keys, rows[1..], o);
      assert forall row :: row in rows <==> row == rows[0] || row in rows[1..];
    }
  }

  /** ... in the order of the rows. */
  lemma {:induction false} OptionsInOrder(keys: Keys, a: seq<Js>, b: seq<Js>)
    ensures OptionsOf(keys, a + b) == OptionsOf(keys, a) + OptionsOf(keys, b)
  {
    hide ToReferenceOption;
    if a == [] {
      assert a + b == b;
    } else {
      assert (a + b)[0] == a[0] && (a + b)[1..] == a[1..] + b;
      OptionsInOrder(keys, a[1..], b);
    }
  }

  /** `i` is the first of the keys whose field normalises to a code. */
  predicate FirstCoded(fields: seq<(string, Js)>, keys: seq<string>, i: nat) {
    && i < |keys| && Normalize(Field(fields, keys[i])) != ""
    && forall j | 0 <= j < i :: Normalize(Field(fields, keys[j])) == ""
  }

  lemma {:induction false} FirstCodedDecides(fields: seq<(string, Js)>, keys: seq<string>, i: nat)
    ensures FirstCoded(fields, keys, i) ==> FirstCode(Object(fields), keys) == Normalize(Field(fields, keys[i]))
    ensures (forall key | key in keys :: Normalize(Field(fields, key)) == "") ==> FirstCode(Object(fields), keys) == ""
  {
    UndefinedIsNothing();
    hide Normalize, Field;
    if keys != [] {
      if FirstCoded(fields, keys, i) && i > 0 {
        assert forall j | 0 <= j < i - 1 :: keys[1..][j] == keys[j + 1];
        FirstCodedDecides(fields, keys[1..], i - 1);
      } else {
        FirstCodedDecides(fields, keys[1..], 0);
      }
    }
  }

  lemma UndefinedIsNothing()
    ensures Normalize(Undefined) == ""
  {
  }

  /** An object normalises to what the first of its code keys normalises to that does so to anything, keys in their
      fixed order, and to nothing when none does. */
  lemma ObjectsByFirstKey(fields: seq<(string, Js)>, i: nat)
    ensures FirstCoded(fields, CodeKeys(), i) ==> Normalize(Object(fields)) == Normalize(Field(fields, CodeKeys()[i]))
    ensures (forall key | key in CodeKeys() :: Normalize(Field(fields, key)) == "") ==> Normalize(Object(fields)) == ""
  {
    ObjectIsFirst(fields);
    hide Normalize, CodeKeys, FirstCode;
    FirstCodedDecides(fields, CodeKeys(), i);
  }

  lemma ObjectIsFirst(fields: seq<(string, Js)>)
    ensures Normalize(Object(fields)) == FirstCode(Object(fields), CodeKeys())
  {
    hide CodeKeys;
  }

  /** What a bare code is called: the entry under the code trimmed and without its leading zeros, `n` of them. */
  predicate CalledBy(keys: Keys, code: string, n: nat, description: string) {
    && DropsZeros(Trim(code), n)
    && description == if Trim(code)[n..] in keys.fallback then keys.fallback[Trim(code)[n..]] else ""
  }

  lemma ZerosLeaveSome(s: string, n: nat)
    requires DropsZeros(s, n) && s != ""
    ensures s[n..] != ""
  {
    if n > 0 {
      assert LeadsDigit(s, n - 1);
    }
  }

  /** A description: what follows the dot when the text starts with the code and a dot, the text itself otherwise, and
      what the code is called when that leaves nothing. */
  lemma Describes(keys: Keys, code: string, rest: string, raw: string, n: nat, called: string)
    requires IsCode(code) && CalledBy(keys, code, n, called) && !(code + [' ', DOT] <= raw)
    ensures Describe(keys, code, code + [' ', DOT] + rest) == if Trim(rest) != "" then Trim(rest) else called
    ensures Describe(keys, code, raw) == if raw != "" then raw else called
  {
    StripZerosDrops(Trim(code), n);
    TrimIsTrimmed(code);
    ZerosLeaveSome(code, n);
    AfterDotPlain(code + [' '], rest);
    assert code + [' ', DOT] + rest == (code + [' ']) + [DOT] + rest;
    hide Trim, IsSpace, StripZeros, AfterDot, DropsZeros;
  }

  // ----- Labels do not pile up -----

  lemma {:induction false} AfterDotPlain(s: string, rest: string)
    requires DOT !in s
    ensures AfterDot(s + [DOT] + rest) == rest
  {
    if s != "" {
      AfterDotPlain(s[1..], rest);
      assert (s + [DOT] + rest)[1..] == s[1..] + [DOT] + rest;
    } else {
      assert s + [DOT] + rest == [DOT] + rest;
    }
  }

  lemma TrimLeadingSpace(s: string)
    requires Trimmed(s)
    ensures Trim([' '] + s) == s
  {
    DotIsNoSpace();
    hide IsSpace;
    assert ([' '] + s)[1..] == s;
    assert TrimStart([' '] + s) == TrimStart(s);
    TrimIsTrimmed(s);
  }

  lemma DescriptionTrimmed(keys: Keys, code: string, raw: string)
    requires Trimmed(raw) && forall k | k in keys.fallback :: Trimmed(keys.fallback[k])
    ensures Trimmed(Describe(keys, code, raw))
  {
    hide Trimmed, NormalizeCodeKey;
    TrimIsTrimmed(AfterDot(raw));
    assert Trimmed("") by {
      EmptyTrimmed();
    }
  }

  lemma EmptyTrimmed()
    ensures Trimmed("")
  {
  }

  /** A printed label taken as the next description (the cached options are read back) prints the same label:
      the code is not prefixed twice. */
  lemma LabelIsStable(keys: Keys, code: string, raw: string)
    requires IsCode(code) && Trimmed(raw) && forall k | k in keys.fallback :: Trimmed(keys.fallback[k])
    ensures var printed := Label(code, Describe(keys, code, raw));
            Label(code, Describe(keys, code, Trim(printed))) == printed
  {
    hide IsSpace, Trim, FallbackDescription;
    DescriptionTrimmed(keys, code, raw);
    var d := Describe(keys, code, raw);
    var shown := if d != "" then d else code;
    assert Label(code, d) == code + [' ', DOT] + ([' '] + shown);
    OwnLabelRead(keys, code, shown);
  }

  lemma OwnLabelRead(keys: Keys, code: string, shown: string)
    requires IsCode(code) && Trimmed(shown) && shown != ""
    ensures Describe(keys, code, Trim(code + [' ', DOT] + ([' '] + shown))) == shown
  {
    hide IsSpace, Trim, FallbackDescription, AfterDot;
    var printed := code + [' ', DOT] + ([' '] + shown);
    assert printed[0] == code[0] && printed[|printed| - 1] == shown[|shown| - 1];
    TrimIsTrimmed(printed);
    assert printed == (code + [' ']) + [DOT] + ([' '] + shown);
    AfterDotPlain(code + [' '], [' '] + shown);
    TrimLeadingSpace(shown);
    assert code + [' ', DOT] <= printed;
  }
}
