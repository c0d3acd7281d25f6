/** The Python values that flow through the core (chain responses, metadata
    dictionaries, session values) and the few built-in operations the core
    applies to them: truthiness, str() and repr(), `in`, item and attribute
    access, iteration, json.dumps and sqlite3's binding of a value to a TEXT
    column. */
module PyValues {
  import opened Wrappers

  /** A Python value. A dict keeps its entries in insertion order; a foreign
      object (a LangChain Document, say) is known only by its type name, its
      attributes and the text its __str__ returns. */
  datatype PyValue =
    | PyNone
    | PyInt(i: int)
    | PyStr(s: string)
    | PyList(items: seq<PyValue>)
    | PyDict(entries: seq<(string, PyValue)>)
    | PyObject(typeName: string, attributes: seq<(string, PyValue)>, text: string)

  /** Python's truth value: None, 0 and empty containers are false; an
      object without __bool__ or __len__ is true. */
  predicate Truthy(v: PyValue) {
    match v
    case PyNone => false
    case PyInt(i) => i != 0
    case PyStr(s) => s != ""
    case PyList(items) => items != []
    case PyDict(entries) => entries != []
    case PyObject(_, _, _) => true
  }

  function TypeName(v: PyValue): string {
    match v
    case PyNone => "NoneType"
    case PyInt(_) => "int"
    case PyStr(_) => "str"
    case PyList(_) => "list"
    case PyDict(_) => "dict"
    case PyObject(t, _, _) => t
  }

  /** The value of the first entry named `key` (a Python dict has one). */
  function Lookup(entries: seq<(string, PyValue)>, key: string): (r: Option<PyValue>)
    ensures r.None? <==> forall i :: 0 <= i < |entries| ==> entries[i].0 != key
    ensures r.Some? ==> exists i :: 0 <= i < |entries| && entries[i] == (key, r.value)
  {
    if entries == [] then None
    else if entries[0].0 == key then Some(entries[0].1)
    else
      var r := Lookup(entries[1..], key);
      assert r.Some? ==> exists i :: 0 <= i < |entries[1..]| && entries[1..][i] == (key, r.value);
      assert r.Some? ==> exists i :: 1 <= i < |entries| && entries[i] == (key, r.value) by {
        if r.Some? {
          var i :| 0 <= i < |entries[1..]| && entries[1..][i] == (key, r.value);
          assert entries[i + 1] == (key, r.value);
        }
      }
      assert r.None? ==> forall i :: 1 <= i < |entries| ==> entries[i].0 != key by {
        if r.None? {
          forall i | 1 <= i < |entries| ensures entries[i].0 != key {
            assert entries[i] == entries[1..][i - 1];
          }
        }
      }
      r
  }

  // ---------------------------------------------------------------------
  // Substrings and lower-casing (str.__contains__ and str.lower())

  /** `needle` occurs in `hay` as a contiguous piece. */
  ghost predicate IsSubstring(needle: string, hay: string) {
    exists i, j :: 0 <= i <= j <= |hay| && hay[i..j] == needle
  }

  /** Python's `needle in hay` for two strings. */
  predicate Contains(needle: string, hay: string)
    decreases |hay|
  {
    |needle| <= |hay| && (hay[..|needle|] == needle || (hay != [] && Contains(needle, hay[1..])))
  }

  lemma {:induction false} ContainsIsSubstring(needle: string, hay: string)
    ensures Contains(needle, hay) <==> IsSubstring(needle, hay)
    decreases |hay|
  {
    if Contains(needle, hay) {
      if hay[..|needle|] == needle {
        assert hay[0..|needle|] == needle;
      } else {
        ContainsIsSubstring(needle, hay[1..]);
        var i, j :| 0 <= i <= j <= |hay[1..]| && hay[1..][i..j] == needle;
        assert hay[i + 1..j + 1] == needle;
      }
    }
    if IsSubstring(needle, hay) {
      var i, j :| 0 <= i <= j <= |hay| && hay[i..j] == needle;
      if i == 0 {
        assert hay[..|needle|] == needle;
      } else {
        assert hay[1..][i - 1..j - 1] == needle;
        ContainsIsSubstring(needle, hay[1..]);
      }
    }
  }

  /** The empty string is in every string. */
  lemma EmptyIsContained(hay: string)
    ensures Contains("", hay)
  {
  }

  /** str.lower() on one character; only A-Z are mapped. */
  function LowerChar(c: char): (r: char)
    ensures 'A' <= c <= 'Z' ==> r as int == c as int + 32
    ensures !('A' <= c <= 'Z') ==> r == c
  {
    if 'A' <= c <= 'Z' then (c as int + 32) as char else c
  }

  /** str.lower(), restricted to ASCII letters. */
  function Lower(s: string): (r: string)
    ensures |r| == |s|
    ensures forall i :: 0 <= i < |s| ==> r[i] == LowerChar(s[i])
    ensures forall i :: 0 <= i < |r| ==> !('A' <= r[i] <= 'Z')
  {
    seq(|s|, i requires 0 <= i < |s| => LowerChar(s[i]))
  }

  // ---------------------------------------------------------------------
  // str() and repr()

  function DigitChar(d: int): char
    requires 0 <= d < 10
  {
    "0123456789"[d]
  }

  /** The decimal digits of n, as str(n) gives them. */
  function DecimalText(n: nat): (r: string)
    ensures r != []
    ensures forall i :: 0 <= i < |r| ==> '0' <= r[i] <= '9'
  {
    if n < 10 then [DigitChar(n)] else DecimalText(n / 10) + [DigitChar(n % 10)]
  }

  /** str(i) for an int. */
  function IntText(i: int): string {
    if i < 0 then "-" + DecimalText(-i) else DecimalText(i)
  }

  /** One character as it appears inside the quotes of repr(str). Python
      escapes the backslash, the chosen quote, \n, \r, \t and the other
      control characters; everything from U+00A1 on is taken as printable. */
  function ReprChar(c: char, quote: char): string {
    if c == '\\' then "\\\\"
    else if c == quote then ['\\', quote]
    else if c == '\n' then "\\n"
    else if c == '\r' then "\\r"
    else if c == '\t' then "\\t"
    else if c as int < 0x20 || 0x7f <= c as int <= 0xa0 then "\\x" + Hex2(c as int)
    else [c]
  }

  function ReprChars(s: string, quote: char): string {
    if s == [] then "" else ReprChar(s[0], quote) + ReprChars(s[1..], quote)
  }

  /** repr() of a str: single quotes unless the text has a single quote and
      no double quote. */
  function QuoteRepr(s: string): string {
    var quote := if '\'' in s && '"' !in s then '"' else '\'';
    [quote] + ReprChars(s, quote) + [quote]
  }

  function HexDigit(d: int): (c: char)
    requires 0 <= d < 16
    ensures '0' <= c <= '9' || 'a' <= c <= 'f'
  {
    "0123456789abcdef"[d]
  }

  function Hex2(n: int): (r: string)
    requires 0 <= n < 0x100
    ensures |r| == 2 && forall i :: 0 <= i < 2 ==> ' ' <= r[i] <= '~'
  {
    [HexDigit(n / 16), HexDigit(n % 16)]
  }

  function Hex4(n: int): (r: string)
    requires 0 <= n < 0x1_0000
    ensures |r| == 4 && forall i :: 0 <= i < 4 ==> ' ' <= r[i] <= '~'
  {
    Hex2(n / 0x100) + Hex2(n % 0x100)
  }

  /** repr(v). */
  function Repr(v: PyValue): string
    decreases v, 1
  {
    match v
    case PyNone => "None"
    case PyInt(i) => IntText(i)
    case PyStr(s) => QuoteRepr(s)
    case PyList(items) => "[" + ReprItems(v, 0) + "]"
    case PyDict(entries) => "{" + ReprEntries(v, 0) + "}"
    case PyObject(_, _, text) => text
  }

  /** The items of a list from index k on, separated by ", ". */
  function ReprItems(v: PyValue, k: nat): string
    requires v.PyList? && k <= |v.items|
    decreases v, 0, |v.items| - k
  {
    if k == |v.items| then ""
    else Repr(v.items[k]) + (if k + 1 == |v.items| then "" else ", " + ReprItems(v, k + 1))
  }

  /** The entries of a dict from index k on, as "'key': value". */
  function ReprEntries(v: PyValue, k: nat): string
    requires v.PyDict? && k <= |v.entries|
    decreases v, 0, |v.entries| - k
  {
    if k == |v.entries| then ""
    else
      assert v.entries[k].1 < v.entries[k];
      QuoteRepr(v.entries[k].0) + ": " + Repr(v.entries[k].1)
      + (if k + 1 == |v.entries| then "" else ", " + ReprEntries(v, k + 1))
  }

  /** str(v): a str is itself, everything else its repr. */
  function Str(v: PyValue): string {
    if v.PyStr? then v.s else Repr(v)
  }

  /** str() of a dict or a list is never empty, so only an empty str, or an
      object whose __str__ returns "", renders as "". */
  lemma StrOfContainerNonEmpty(v: PyValue)
    requires v.PyDict? || v.PyList? || v.PyNone? || v.PyInt?
    ensures Str(v) != ""
  {
    if v.PyInt? {
      assert IntText(v.i) != [];
    }
  }

  // ---------------------------------------------------------------------
  // Operators

  /** `key in v` for a str key. */
  function In(key: string, v: PyValue): Outcome<bool> {
    match v
    case PyDict(entries) => Ok(Lookup(entries, key).Some?)
    case PyStr(s) => Ok(Contains(key, s))
    case PyList(items) => Ok(PyStr(key) in items)
    case _ => Raised("argument of type '" + TypeName(v) + "' is not iterable")
  }

  /** `v[key]` for a str key. */
  function GetItem(v: PyValue, key: string): Outcome<PyValue> {
    match v
    case PyDict(entries) =>
      (match Lookup(entries, key)
       case Some(x) => Ok(x)
       case None => Raised(QuoteRepr(key)))
    case PyStr(_) => Raised("string indices must be integers, not 'str'")
    case PyList(_) => Raised("list indices must be integers or slices, not str")
    case _ => Raised("'" + TypeName(v) + "' object is not subscriptable")
  }

  /** getattr(v, name) where it exists. Only foreign objects carry the
      attributes the core asks for ('source_documents', 'metadata'). */
  function GetAttr(v: PyValue, name: string): Option<PyValue> {
    if v.PyObject? then Lookup(v.attributes, name) else None
  }

  // ---------------------------------------------------------------------
  // json.dumps (default separators, ensure_ascii=True)

  /** One character inside a JSON string literal. */
  function JsonChar(c: char): (r: string)
    ensures forall i :: 0 <= i < |r| ==> ' ' <= r[i] <= '~'
  {
    if c == '"' then "\\\""
    else if c == '\\' then "\\\\"
    else if c == '\n' then "\\n"
    else if c == '\r' then "\\r"
    else if c == '\t' then "\\t"
    else if c as int == 8 then "\\b"
    else if c as int == 12 then "\\f"
    else if ' ' <= c <= '~' then [c]
    else if c as int < 0x1_0000 then "\\u" + Hex4(c as int)
    else
      var u := c as int - 0x1_0000;
      "\\u" + Hex4(0xd800 + u / 0x400) + "\\u" + Hex4(0xdc00 + u % 0x400)
  }

  function JsonChars(s: string): (r: string)
    ensures forall i :: 0 <= i < |r| ==> ' ' <= r[i] <= '~'
  {
    if s == [] then "" else JsonChar(s[0]) + JsonChars(s[1..])
  }

  /** A JSON string literal. */
  function JsonQuote(s: string): (r: string)
    ensures |r| >= 2 && r[0] == '"' && r[|r| - 1] == '"'
    ensures forall i :: 0 <= i < |r| ==> ' ' <= r[i] <= '~'
  {
    "\"" + JsonChars(s) + "\""
  }

  /** json.dumps(v): foreign objects are not serialisable. */
  function Dumps(v: PyValue): Outcome<string>
    decreases v, 1
  {
    match v
    case PyNone => Ok("null")
    case PyInt(i) => Ok(IntText(i))
    case PyStr(s) => Ok(JsonQuote(s))
    case PyList(_) =>
      (match DumpsItems(v, 0)
       case Ok(t) => Ok("[" + t + "]")
       case Raised(e) => Raised(e))
    case PyDict(_) =>
      (match DumpsEntries(v, 0)
       case Ok(t) => Ok("{" + t + "}")
       case Raised(e) => Raised(e))
    case PyObject(t, _, _) => Raised("Object of type " + t + " is not JSON serializable")
  }

  function DumpsItems(v: PyValue, k: nat): Outcome<string>
    requires v.PyList? && k <= |v.items|
    decreases v, 0, |v.items| - k
  {
    if k == |v.items| then Ok("")
    else
      match Dumps(v.items[k])
      case Raised(e) => Raised(e)
      case Ok(head) =>
        if k + 1 == |v.items| then Ok(head)
        else
          match DumpsItems(v, k + 1)
          case Raised(e) => Raised(e)
          case Ok(rest) => Ok(head + ", " + rest)
  }

  function DumpsEntries(v: PyValue, k: nat): Outcome<string>
    requires v.PyDict? && k <= |v.entries|
    decreases v, 0, |v.entries| - k
  {
    if k == |v.entries| then Ok("")
    else
      assert v.entries[k].1 < v.entries[k];
      match Dumps(v.entries[k].1)
      case Raised(e) => Raised(e)
      case Ok(value) =>
        var head := JsonQuote(v.entries[k].0) + ": " + value;
        if k + 1 == |v.entries| then Ok(head)
        else
          match DumpsEntries(v, k + 1)
          case Raised(e) => Raised(e)
          case Ok(rest) => Ok(head + ", " + rest)
  }

  /** The JSON text of a list starts with '[', that of a str with '"'. */
  lemma DumpsFirstChar(v: PyValue)
    requires Dumps(v).Ok?
    ensures v.PyList? ==> Dumps(v).value[0] == '['
    ensures v.PyStr? ==> Dumps(v).value[0] == '"'
    ensures v.PyDict? ==> Dumps(v).value[0] == '{'
  {
  }

  // ---------------------------------------------------------------------
  // sqlite3 parameter binding

  /** Binding v to a TEXT NOT NULL column: a str as is, an int converted by the
      column's TEXT affinity, None violates NOT NULL, and list, dict and foreign
      objects are rejected by the sqlite3 module. */
  function BindText(v: PyValue): Outcome<string> {
    match v
    case PyStr(s) => Ok(s)
    case PyInt(i) => Ok(IntText(i))
    case PyNone => Raised("NOT NULL constraint failed")
    case _ => Raised("Error binding parameter 1: type '" + TypeName(v) + "' is not supported")
  }

  /** Binding v to a nullable TEXT column: None becomes NULL. */
  function BindNullableText(v: PyValue): Outcome<Option<string>> {
    if v.PyNone? then Ok(None)
    else match BindText(v)
      case Ok(t) => Ok(Some(t))
      case Raised(e) => Raised(e)
  }
}
