/**
 * JSON documents as trees, and the text `stringifyInner` writes for them.
 * Objects keep their members in the order they are written.
 */
module Json {
  import opened JsValue
  import Decimal

  datatype Json =
    | JNull
    | JBool(b: bool)
    | JNum(n: int)
    | JStr(s: string)
    | JArr(items: seq<Json>)
    | JObj(members: seq<Prop<Json>>)

  const HexDigits: string := "0123456789abcdef"

  /** One character of a string literal, escaped as `JSON.stringify` escapes it. */
  function EscapeChar(c: char): (r: string)
    ensures |r| >= 1
  {
    if c == '"' then "\\\""
    else if c == '\\' then "\\\\"
    else if c as int == 8 then "\\b"
    else if c == '\t' then "\\t"
    else if c == '\n' then "\\n"
    else if c as int == 12 then "\\f"
    else if c == '\r' then "\\r"
    else if c < ' ' then "\\u00" + [HexDigits[c as int / 16], HexDigits[c as int % 16]]
    else [c]
  }

  function Escape(s: string): string {
    if s == [] then "" else Escape(s[..|s| - 1]) + EscapeChar(s[|s| - 1])
  }

  /** `JSON.stringify` of a string: the escaped characters between double quotes. */
  function Quote(s: string): (r: string)
    ensures |r| >= 2 && r[0] == '"' && r[|r| - 1] == '"'
  {
    "\"" + Escape(s) + "\""
  }

  /** The text of a JSON document, with no white space. */
  function Render(j: Json): (r: string)
    ensures r != []
  {
    match j
    case JNull => "null"
    case JBool(b) => if b then "true" else "false"
    case JNum(n) => Decimal.IntToDecimal(n)
    case JStr(s) => Quote(s)
    case JArr(items) => "[" + RenderItems(items) + "]"
    case JObj(members) => "{" + RenderMembers(members) + "}"
  }

  /** The elements of an array, separated by commas. */
  function RenderItems(items: seq<Json>): string {
    if items == [] then ""
    else if |items| == 1 then Render(items[0])
    else RenderItems(items[..|items| - 1]) + "," + Render(items[|items| - 1])
  }

  /** The members of an object as `"key":value`, separated by commas. */
  function RenderMembers(members: seq<Prop<Json>>): string {
    if members == [] then ""
    else if |members| == 1 then RenderMember(members[0])
    else RenderMembers(members[..|members| - 1]) + "," + RenderMember(members[|members| - 1])
  }

  function RenderMember(m: Prop<Json>): string {
    Quote(m.key) + ":" + Render(m.value)
  }

  lemma RenderItemsSnoc(items: seq<Json>, j: Json)
    ensures RenderItems(items + [j]) == if items == [] then Render(j) else RenderItems(items) + "," + Render(j)
  {
    assert (items + [j])[..|items|] == items;
  }

  lemma RenderMembersSnoc(members: seq<Prop<Json>>, m: Prop<Json>)
    ensures RenderMembers(members + [m]) ==
      if members == [] then RenderMember(m) else RenderMembers(members) + "," + RenderMember(m)
  {
    assert (members + [m])[..|members|] == members;
  }

  lemma RenderMembersEmpty(members: seq<Prop<Json>>)
    ensures RenderMembers(members) == "" <==> members == []
  {
    if members != [] {
      var m := members[|members| - 1];
      assert |RenderMember(m)| > 0;
    }
  }

  /** A character `JSON.stringify` writes as it is. */
  predicate PlainChar(c: char) {
    c >= ' ' && c != '"' && c != '\\'
  }

  lemma {:induction false} EscapePlain(s: string)
    requires forall i :: 0 <= i < |s| ==> PlainChar(s[i])
    ensures Escape(s) == s
  {
    if s != [] {
      EscapePlain(s[..|s| - 1]);
      assert s == s[..|s| - 1] + [s[|s| - 1]];
    }
  }
}
