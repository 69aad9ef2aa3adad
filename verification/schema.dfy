/** The schema normalizer: header names are trimmed, lower-cased and have
    their spaces replaced by underscores (app.py:22-27); the required logical
    fields are then looked up among the normalized names (app.py:30-43). */
module Schema {
  import opened Seqs
  import opened StringOrder

  /** The characters Python's `str.strip()` removes: those for which
      `str.isspace()` holds. */
  predicate IsWhitespace(c: char) {
    var n := c as int;
    || 0x09 <= n <= 0x0D || 0x1C <= n <= 0x20
    || n == 0x85 || n == 0xA0 || n == 0x1680
    || 0x2000 <= n <= 0x200A
    || n == 0x2028 || n == 0x2029 || n == 0x202F || n == 0x205F || n == 0x3000
  }

  predicate IsAsciiUpper(c: char) {
    'A' <= c <= 'Z'
  }

  function LowerChar(c: char): (d: char)
    ensures !IsAsciiUpper(d)
    ensures IsWhitespace(d) <==> IsWhitespace(c)
    ensures !IsAsciiUpper(c) ==> d == c
    ensures IsAsciiUpper(c) ==> d as int == c as int + 32
  {
    if IsAsciiUpper(c) then (c as int - 'A' as int + 'a' as int) as char else c
  }

  /** `str.lstrip()`: drops the leading whitespace and nothing else. */
  function StripLeading(s: string): (r: string)
    ensures r == [] || !IsWhitespace(r[0])
    ensures |r| <= |s| && r == s[|s| - |r|..]
    ensures forall k :: 0 <= k < |s| - |r| ==> IsWhitespace(s[k])
  {
    if s != [] && IsWhitespace(s[0]) then StripLeading(s[1..]) else s
  }

  /** `str.rstrip()`: drops the trailing whitespace and nothing else. */
  function StripTrailing(s: string): (r: string)
    ensures r == [] || !IsWhitespace(r[|r| - 1])
    ensures |r| <= |s| && r == s[..|r|]
    ensures forall k :: |r| <= k < |s| ==> IsWhitespace(s[k])
  {
    if s != [] && IsWhitespace(s[|s| - 1]) then StripTrailing(s[..|s| - 1]) else s
  }

  /** `str.strip()`: a contiguous slice of `s`, everything cut off on either
      side is whitespace, and what is left neither starts nor ends with it. */
  function Strip(s: string): (r: string)
    ensures r == [] || (!IsWhitespace(r[0]) && !IsWhitespace(r[|r| - 1]))
    ensures exists i :: 0 <= i <= |s| - |r| && r == s[i..][..|r|]
              && (forall k :: 0 <= k < i ==> IsWhitespace(s[k]))
              && (forall k :: i + |r| <= k < |s| ==> IsWhitespace(s[k]))
  {
    var left := StripLeading(s);
    var r := StripTrailing(left);
    var i := |s| - |left|;
    assert r == s[i..][..|r|];
    r
  }

  /** Text that neither starts nor ends with whitespace is left as it is. */
  lemma StripUnchanged(s: string)
    requires s == [] || (!IsWhitespace(s[0]) && !IsWhitespace(s[|s| - 1]))
    ensures Strip(s) == s
  {
    assert StripLeading(s) == s;
    assert StripTrailing(s) == s;
  }

  /** `str.lower()`, restricted to the ASCII letters. */
  function Lower(s: string): (r: string)
    ensures |r| == |s|
    ensures forall k :: 0 <= k < |r| ==> !IsAsciiUpper(r[k]) && (IsWhitespace(r[k]) <==> IsWhitespace(s[k]))
    ensures forall k :: 0 <= k < |s| ==> (IsAsciiUpper(s[k]) ==> r[k] as int == s[k] as int + 32)
    ensures forall k :: 0 <= k < |s| ==> (!IsAsciiUpper(s[k]) ==> r[k] == s[k])
  {
    seq(|s|, k requires 0 <= k < |s| => LowerChar(s[k]))
  }

  /** `str.replace(" ", "_")`. */
  function ReplaceSpaces(s: string): (r: string)
    ensures |r| == |s|
    ensures forall k :: 0 <= k < |r| ==> r[k] != ' ' && (s[k] != ' ' ==> r[k] == s[k])
    ensures forall k :: 0 <= k < |s| ==> (s[k] == ' ' ==> r[k] == '_')
  {
    seq(|s|, k requires 0 <= k < |s| => if s[k] == ' ' then '_' else s[k])
  }

  /** What normalization makes of one character inside the trimmed
      header: a space becomes `_`, an ASCII capital its small letter, and
      anything else stays. */
  function Canon(c: char): (d: char)
    ensures c == ' ' ==> d == '_'
    ensures IsAsciiUpper(c) ==> d as int == c as int + 32
    ensures c != ' ' && !IsAsciiUpper(c) ==> d == c
  {
    if c == ' ' then '_' else LowerChar(c)
  }

  /** Two characters normalize alike exactly when they are equal, are a
      space and an underscore, or are the capital and small forms of one
      ASCII letter. */
  lemma CanonAlike(c: char, d: char)
    ensures Canon(c) == Canon(d) <==>
              || c == d
              || (c == ' ' && d == '_') || (c == '_' && d == ' ')
              || (IsAsciiUpper(c) && d as int == c as int + 32)
              || (IsAsciiUpper(d) && c as int == d as int + 32)
  {
  }

  /** The canonical form of one column header: the trimmed header, with
      every character put in canonical form. */
  function Normalize(name: string): (r: string)
    ensures forall k :: 0 <= k < |r| ==> r[k] != ' ' && !IsAsciiUpper(r[k])
    ensures r == [] || (!IsWhitespace(r[0]) && !IsWhitespace(r[|r| - 1]))
    ensures |r| == |Strip(name)| <= |name|
    ensures forall k :: 0 <= k < |r| ==> r[k] == Canon(Strip(name)[k])
  {
    ReplaceSpaces(Lower(Strip(name)))
  }

  /** Two headers name the same column exactly when, once trimmed, they
      have the same length and agree character by character up to ASCII
      case and the space/underscore difference. */
  lemma NormalizeMatches(a: string, b: string)
    ensures Normalize(a) == Normalize(b) <==>
              |Strip(a)| == |Strip(b)| &&
              forall k :: 0 <= k < |Strip(a)| ==> Canon(Strip(a)[k]) == Canon(Strip(b)[k])
  {
    CanonFormsMatch(Strip(a), Strip(b), Normalize(a), Normalize(b));
  }

  /** Canonical forms of two texts are equal exactly when the texts agree
      position by position up to `Canon`. */
  lemma CanonFormsMatch(sa: string, sb: string, na: string, nb: string)
    requires |na| == |sa| && forall k :: 0 <= k < |sa| ==> na[k] == Canon(sa[k])
    requires |nb| == |sb| && forall k :: 0 <= k < |sb| ==> nb[k] == Canon(sb[k])
    ensures na == nb <==> |sa| == |sb| && forall k :: 0 <= k < |sa| ==> Canon(sa[k]) == Canon(sb[k])
  {
    if |sa| == |sb| && forall k :: 0 <= k < |sa| ==> Canon(sa[k]) == Canon(sb[k]) {
      assert forall k :: 0 <= k < |na| ==> na[k] == nb[k];
    }
  }

  lemma LowerUnchanged(s: string)
    requires forall k :: 0 <= k < |s| ==> !IsAsciiUpper(s[k])
    ensures Lower(s) == s
  {
    assert forall k :: 0 <= k < |s| ==> Lower(s)[k] == s[k];
  }

  lemma ReplaceSpacesUnchanged(s: string)
    requires forall k :: 0 <= k < |s| ==> s[k] != ' '
    ensures ReplaceSpaces(s) == s
  {
    assert forall k :: 0 <= k < |s| ==> ReplaceSpaces(s)[k] == s[k];
  }

  /** Normalizing a normalized name changes nothing. */
  lemma NormalizeIdempotent(name: string)
    ensures Normalize(Normalize(name)) == Normalize(name)
  {
    var n := Normalize(name);
    StripUnchanged(n);
    LowerUnchanged(n);
    ReplaceSpacesUnchanged(n);
  }

  function NormalizeColumns(header: seq<string>): (columns: seq<string>)
    ensures |columns| == |header|
    ensures forall k :: 0 <= k < |header| ==> columns[k] == Normalize(header[k])
  {
    seq(|header|, k requires 0 <= k < |header| => Normalize(header[k]))
  }

  const RequiredFields: set<string> :=
    {"state_of_residence", "month", "month_code", "year_code", "sex_of_infant", "births"}

  /** `required_fields - set(df.columns)`. */
  function MissingFields(columns: seq<string>): (missing: set<string>)
    ensures missing <= RequiredFields
    ensures forall c :: c in columns ==> c !in missing
  {
    RequiredFields - set c | c in columns
  }

  /** A required field is missing exactly when no header of the file
      normalizes to it: headers are matched ignoring ASCII case, surrounding
      whitespace and the space/underscore difference. */
  lemma MissingFieldsOfHeader(header: seq<string>, field: string)
    ensures field in MissingFields(NormalizeColumns(header))
        <==> field in RequiredFields && forall h :: h in header ==> Normalize(h) != field
  {
    var columns := NormalizeColumns(header);
    if field in RequiredFields && field !in MissingFields(columns) {
      var k :| 0 <= k < |columns| && columns[k] == field;
      assert header[k] in header;
    }
  }

  /** `sorted(list(missing_fields))`: the set listed in an arbitrary order,
      then sorted. */
  method SortedNames(names: set<string>) returns (r: seq<string>)
    ensures StrictlyAscending(r)
    ensures forall x :: x in r <==> x in names
    ensures |r| == |names|
  {
    var listed: seq<string> := [];
    var rest := names;
    while rest != {}
      invariant rest <= names
      invariant forall x :: x in listed <==> x in names && x !in rest
      invariant NoDup(listed)
      invariant |listed| + |rest| == |names|
      decreases rest
    {
      var x :| x in rest;
      listed := listed + [x];
      rest := rest - {x};
    }
    r := SortStrings(listed);
  }

  lemma ExampleStripLeadingOnce()
    ensures StripLeading(" Sex of Infant ") == "Sex of Infant "
  {
    assert !IsWhitespace('S');
    assert " Sex of Infant "[1..] == "Sex of Infant ";
  }

  lemma ExampleStripLeading()
    ensures StripLeading("  Sex of Infant ") == "Sex of Infant "
  {
    ExampleStripLeadingOnce();
    assert "  Sex of Infant "[1..] == " Sex of Infant ";
  }

  lemma ExampleStripTrailing()
    ensures StripTrailing("Sex of Infant ") == "Sex of Infant"
  {
    assert IsWhitespace(' ') && !IsWhitespace('t');
    assert "Sex of Infant "[..13] == "Sex of Infant";
  }

  lemma ExampleStrip()
    ensures Strip("  Sex of Infant ") == "Sex of Infant"
  {
    ExampleStripLeading();
    ExampleStripTrailing();
  }

  lemma ExampleLower()
    ensures ReplaceSpaces(Lower("Sex of Infant")) == "sex_of_infant"
  {
    assert LowerChar('S') == 's' && LowerChar('I') == 'i';
    assert Lower("Sex of Infant") == "sex of infant";
  }

  /** A header written with capitals, padding and spaces still supplies the
      required field. */
  lemma ExampleHeaderMatches()
    ensures Normalize("  Sex of Infant ") == "sex_of_infant"
  {
    ExampleStrip();
    ExampleLower();
  }
}
