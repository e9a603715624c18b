/** What splitting and trimming mean, without reference to how they are done. */
module TextLaws {
  import opened Text

  function Join(parts: seq<string>, separator: char): string {
    if parts == [] then ""
    else if |parts| == 1 then parts[0]
    else parts[0] + [separator] + Join(parts[1..], separator)
  }

  lemma {:induction false} IndexOfFirst(a: string, c: char, b: string)
    requires c !in a
    ensures IndexOf(a + [c] + b, c) == |a|
  {
    var t := a + [c] + b;
    assert t[|a|] == c && forall j :: 0 <= j < |a| ==> t[j] == a[j];
  }

  lemma IndexOfNone(a: string, c: char)
    requires c !in a
    ensures IndexOf(a, c) == |a|
  {
  }

  /** The parts between the separators, and nothing else: joined again they are the text, and none of them
      holds a separator. */
  lemma {:induction false} SplitJoin(s: string, c: char)
    ensures Split(s, c) != [] && Join(Split(s, c), c) == s
    ensures forall part :: part in Split(s, c) ==> c !in part
    decreases |s|
  {
    var i := IndexOf(s, c);
    if i < |s| {
      SplitJoin(s[i + 1..], c);
      assert s == s[..i] + [c] + s[i + 1..];
      assert Split(s, c)[1..] == Split(s[i + 1..], c);
    }
  }

  lemma SplitFirst(t: string, a: string, c: char, b: string)
    requires c !in a && t == a + [c] + b
    ensures Split(t, c) == [a] + Split(b, c)
  {
    IndexOfFirst(a, c, b);
    assert t[..|a|] == a && t[|a| + 1..] == b;
  }

  lemma SplitOne(a: string, c: char)
    requires c !in a
    ensures Split(a, c) == [a]
  {
    IndexOfNone(a, c);
  }

  lemma Cut(a: string, c: char) returns (first: string, rest: string)
    requires c in a
    ensures a == first + [c] + rest && c !in first && |rest| < |a|
  {
    var i := IndexOf(a, c);
    assert i == |a| ==> c !in a;
    first, rest := a[..i], a[i + 1..];
  }

  lemma Regroup(a: string, first: string, c: char, rest: string, b: string)
    requires a == first + [c] + rest
    ensures a + [c] + b == first + [c] + (rest + [c] + b)
  {
  }

  lemma Longer(first: string, whole: seq<string>, a: seq<string>, rest: seq<string>, b: seq<string>)
    requires a == [first] + rest && whole == [first] + (rest + b)
    ensures whole == a + b
  {
  }

  lemma {:induction false} SplitOf(t: string, a: string, c: char, b: string)
    requires t == a + [c] + b
    ensures Split(t, c) == Split(a, c) + Split(b, c)
    decreases |a|
  {
    if c !in a {
      SplitFirst(t, a, c, b);
      SplitOne(a, c);
    } else {
      var first, rest := Cut(a, c);
      var tail := rest + [c] + b;
      Regroup(a, first, c, rest, b);
      SplitOf(tail, rest, c, b);
      SplitFirst(a, first, c, rest);
      SplitFirst(t, first, c, tail);
      Longer(first, Split(t, c), Split(a, c), Split(rest, c), Split(b, c));
    }
  }

  /** A separator separates. */
  lemma SplitConcat(a: string, c: char, b: string)
    ensures Split(a + [c] + b, c) == Split(a, c) + Split(b, c)
  {
    SplitOf(a + [c] + b, a, c, b);
  }

  predicate NoSpaces(s: string) { forall i :: 0 <= i < |s| ==> !IsSpace(s[i]) }

  predicate OnlySpaces(s: string) { forall i :: 0 <= i < |s| ==> IsSpace(s[i]) }

  // ---------------------------------------------------------------- fields

  lemma {:induction false} FieldsFromWord(word: string, more: string)
    requires NoSpaces(more)
    ensures FieldsFrom(more, word) == if word + more == "" then [] else [word + more]
    decreases |more|
  {
    if more != "" {
      FieldsFromWord(word + [more[0]], more[1..]);
      assert word + [more[0]] + more[1..] == word + more;
    } else {
      assert word + more == word;
    }
  }

  lemma {:induction false} FieldsFromConcat(a: string, space: char, b: string, word: string)
    requires IsSpace(space)
    ensures FieldsFrom(a + [space] + b, word) == FieldsFrom(a, word) + Fields(b)
    decreases |a|
  {
    var t := a + [space] + b;
    if a == "" {
      assert t[0] == space && t[1..] == b;
    } else {
      assert t[0] == a[0] && t[1..] == a[1..] + [space] + b;
      if !IsSpace(a[0]) {
        FieldsFromConcat(a[1..], space, b, word + [a[0]]);
      } else {
        FieldsFromConcat(a[1..], space, b, "");
      }
    }
  }

  /** A text without white space is one field, nothing is none, and white space separates. */
  lemma FieldsLaw(word: string, a: string, space: char, b: string)
    requires NoSpaces(word) && IsSpace(space)
    ensures Fields(word) == if word == "" then [] else [word]
    ensures Fields(a + [space] + b) == Fields(a) + Fields(b)
  {
    FieldsFromWord("", word);
    assert "" + word == word;
    FieldsFromConcat(a, space, b, "");
  }

  // ---------------------------------------------------------------- trimming

  /** White space at both ends goes, and what is in between stays. */
  lemma {:induction false} TrimSpaceLaw(left: string, s: string, right: string)
    requires OnlySpaces(left) && OnlySpaces(right) && (s != "" ==> !IsSpace(s[0]) && !IsSpace(s[|s| - 1]))
    ensures TrimSpace(left + s + right) == s
    decreases |left| + |right|
  {
    var t := left + s + right;
    if left != "" {
      assert t[0] == left[0] && t[1..] == left[1..] + s + right;
      TrimSpaceLaw(left[1..], s, right);
    } else if s == "" {
      assert t == right;
      if right != "" {
        assert t[1..] == right[1..] + s + "";
        TrimSpaceLaw(right[1..], s, "");
      }
    } else {
      assert t[0] == s[0];
      if right != "" {
        var n := |right| - 1;
        assert t[|t| - 1] == right[n] && t[..|t| - 1] == left + s + right[..n];
        TrimSpaceLaw(left, s, right[..n]);
      } else {
        assert t == s;
      }
    }
  }

  lemma {:induction false} TrimmedConcat(a: seq<string>, b: seq<string>)
    ensures Trimmed(a + b) == Trimmed(a) + Trimmed(b)
  {
    if a == [] {
      assert a + b == b;
    } else {
      assert (a + b)[1..] == a[1..] + b;
      TrimmedConcat(a[1..], b);
    }
  }

  // ---------------------------------------------------------------- comma-separated lists

  /** One element is its text without the white space around it, an empty one is none, and commas separate. */
  lemma SplitCsvLaw(left: string, s: string, right: string, a: string, b: string)
    requires OnlySpaces(left) && OnlySpaces(right) && ',' !in s && (s != "" ==> !IsSpace(s[0]) && !IsSpace(s[|s| - 1]))
    ensures SplitCsv(left + s + right) == if s == "" then [] else [s]
    ensures SplitCsv(a + "," + b) == SplitCsv(a) + SplitCsv(b)
  {
    var t := left + s + right;
    assert ',' !in t by {
      assert !IsSpace(',');
    }
    IndexOfNone(t, ',');
    assert Split(t, ',') == [t];
    TrimSpaceLaw(left, s, right);
    assert Trimmed([t][1..]) == [];
    SplitConcat(a, ',', b);
    TrimmedConcat(Split(a, ','), Split(b, ','));
  }

  /** The set of a list is what its elements name. */
  lemma CsvSetLaw(left: string, s: string, right: string, a: string, b: string)
    requires OnlySpaces(left) && OnlySpaces(right) && ',' !in s && (s != "" ==> !IsSpace(s[0]) && !IsSpace(s[|s| - 1]))
    ensures CsvSet(left + s + right) == if s == "" then {} else {s}
    ensures CsvSet(a + "," + b) == CsvSet(a) + CsvSet(b)
  {
    SplitCsvLaw(left, s, right, a, b);
  }

  /** Blanks, tabs and line ends are white space; digits, letters and the punctuation of the lists are not. */
  lemma SpacesAre()
    ensures IsSpace(' ') && IsSpace('\t') && IsSpace('\n') && IsSpace('\r')
    ensures forall c :: '!' <= c <= '~' ==> !IsSpace(c)
  {
  }
}
