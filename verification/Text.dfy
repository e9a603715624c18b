/** Splitting text, as the source's standard library and its comma-separated lists do it. */
module Text {
  /** unicode.IsSpace. */
  predicate IsSpace(c: char) {
    var code := c as int;
    9 <= code <= 13 || code == 0x20 || code == 0x85 || code == 0xA0 || code == 0x1680 || 0x2000 <= code <= 0x200a ||
    code == 0x2028 || code == 0x2029 || code == 0x202f || code == 0x205f || code == 0x3000
  }

  /** Index of the first `c`, or the length. */
  function IndexOf(s: string, c: char): (i: nat)
    ensures i <= |s| && (forall j :: 0 <= j < i ==> s[j] != c) && (i < |s| ==> s[i] == c)
  {
    if s == "" || s[0] == c then 0 else 1 + IndexOf(s[1..], c)
  }

  /** strings.Split by one character. */
  function Split(s: string, separator: char): seq<string>
    decreases |s|
  {
    var i := IndexOf(s, separator);
    if i == |s| then [s] else [s[..i]] + Split(s[i + 1..], separator)
  }

  /** strings.Fields: the runs of characters that are not white space. */
  function Fields(s: string): seq<string> {
    FieldsFrom(s, "")
  }

  function FieldsFrom(s: string, word: string): seq<string>
    decreases |s|
  {
    if s == "" then (if word == "" then [] else [word])
    else if !IsSpace(s[0]) then FieldsFrom(s[1..], word + [s[0]])
    else if word == "" then FieldsFrom(s[1..], "")
    else [word] + FieldsFrom(s[1..], "")
  }

  /** strings.TrimSpace. */
  function TrimSpace(s: string): (t: string)
    ensures t != "" ==> !IsSpace(t[0]) && !IsSpace(t[|t| - 1])
    decreases |s|
  {
    if s == "" then ""
    else if IsSpace(s[0]) then TrimSpace(s[1..])
    else if IsSpace(s[|s| - 1]) then TrimSpace(s[..|s| - 1])
    else s
  }

  /** The trimmed elements of a comma-separated list that are not empty. */
  function SplitCsv(s: string): seq<string> {
    Trimmed(Split(s, ','))
  }

  function Trimmed(parts: seq<string>): (values: seq<string>)
    ensures forall v :: v in values ==> v != ""
  {
    if parts == [] then []
    else (if TrimSpace(parts[0]) == "" then [] else [TrimSpace(parts[0])]) + Trimmed(parts[1..])
  }

  /** SplitCSVSet. */
  function CsvSet(s: string): set<string> {
    set v | v in SplitCsv(s)
  }
}
