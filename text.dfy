/** The JavaScript string operations the application relies on, written out
    over `seq<char>`: `trim`, `split` on one character, `join`,
    `startsWith`, `replace` with a string pattern, the `\s` character class,
    quote doubling for CSV, number-to-decimal conversion and
    `encodeURIComponent`. */
module Text {

  import opened Wrappers

  /** The characters ECMAScript counts as WhiteSpace or LineTerminator: what
      `String.prototype.trim` strips and what the regular-expression class
      `\s` matches. */
  predicate IsSpace(c: char) {
    c == ' ' || c == '\t' || c == '\n' || c == '\r' || c == '\U{B}' || c == '\U{C}'
    || c == '\U{A0}' || c == '\U{1680}' || ('\U{2000}' <= c <= '\U{200A}')
    || c == '\U{2028}' || c == '\U{2029}' || c == '\U{202F}' || c == '\U{205F}'
    || c == '\U{3000}' || c == '\U{FEFF}'
  }

  predicate AllSpace(s: string) {
    forall k :: 0 <= k < |s| ==> IsSpace(s[k])
  }

  /** Removes the leading run of whitespace: the result is the suffix of `s`
      that starts at its first non-space character. */
  function TrimStart(s: string): (r: string)
    ensures |r| <= |s| && r == s[|s| - |r|..]
    ensures AllSpace(s[..|s| - |r|])
    ensures r == [] || !IsSpace(r[0])
  {
    if s != [] && IsSpace(s[0]) then TrimStart(s[1..]) else s
  }

  /** Removes the trailing run of whitespace: the result is the prefix of `s`
      that ends at its last non-space character. */
  function TrimEnd(s: string): (r: string)
    ensures |r| <= |s| && r == s[..|r|]
    ensures AllSpace(s[|r|..])
    ensures r == [] || !IsSpace(r[|r| - 1])
  {
    if s != [] && IsSpace(s[|s| - 1]) then TrimEnd(s[..|s| - 1]) else s
  }

  /** `String.prototype.trim`: the leading whitespace is skipped one
      character at a time, then the trailing run is removed. */
  function Trim(s: string): (r: string)
    ensures |r| <= |s|
    ensures forall c :: c in r ==> c in s
  {
    if s != [] && IsSpace(s[0]) then
      var r := Trim(s[1..]);
      assert forall c :: c in s[1..] ==> c in s;
      r
    else
      var r := TrimEnd(s);
      assert forall c :: c in s[..|r|] ==> c in s;
      r
  }

  /** Trimming is removing the leading run, then the trailing run. */
  lemma {:induction false} TrimSteps(s: string)
    ensures Trim(s) == TrimEnd(TrimStart(s))
  {
    if s != [] && IsSpace(s[0]) {
      TrimSteps(s[1..]);
    }
  }

  /** Where `trim`'s result sits in `s`: between position `i`, before which
      there is only whitespace, and position `j`, after which there is only
      whitespace. */
  lemma TrimBounds(s: string) returns (i: nat, j: nat)
    ensures i <= j <= |s| && Trim(s) == s[i..j]
    ensures AllSpace(s[..i]) && AllSpace(s[j..])
  {
    TrimSteps(s);
    var t := TrimStart(s);
    var e := TrimEnd(t);
    i, j := |s| - |t|, |s| - |t| + |e|;
    SuffixSlices(s, i, |e|);
  }

  /** Slicing a suffix of `s` is slicing `s` itself, further along. */
  lemma SuffixSlices(s: string, i: nat, n: nat)
    requires i + n <= |s|
    ensures s[i..][..n] == s[i..i + n] && s[i..][n..] == s[i + n..]
  {
  }

  /** What `trim` keeps is a contiguous piece of `s` with whitespace only
      around it and no whitespace at either of its ends. */
  lemma TrimIsInfix(s: string)
    ensures exists i, j :: (0 <= i <= j <= |s| && Trim(s) == s[i..j]
                            && AllSpace(s[..i]) && AllSpace(s[j..]))
    ensures Trim(s) == [] || (!IsSpace(Trim(s)[0]) && !IsSpace(Trim(s)[|Trim(s)| - 1]))
  {
    var i, j := TrimBounds(s);
    TrimSteps(s);
    var t := TrimStart(s);
    if Trim(s) != [] {
      assert Trim(s)[0] == t[0];
    }
  }

  /** A string trims to nothing exactly when every character is whitespace. */
  lemma TrimEmptyIff(s: string)
    ensures Trim(s) == [] <==> AllSpace(s)
  {
    TrimSteps(s);
    var t := TrimStart(s);
    if t == [] {
      assert s[..|s|] == s;
    } else {
      assert t[0] == s[|s| - |t|];
      var e := TrimEnd(t);
      assert |e| > 0 by { assert !IsSpace(t[0]); }
    }
  }

  /** A string that neither starts nor ends with whitespace is its own
      trim. */
  lemma TrimNoOp(s: string)
    requires s == [] || (!IsSpace(s[0]) && !IsSpace(s[|s| - 1]))
    ensures Trim(s) == s
  {
    TrimSteps(s);
  }

  /** Trimming twice is trimming once. */
  lemma TrimIdempotent(s: string)
    ensures Trim(Trim(s)) == Trim(s)
  {
    var r := Trim(s);
    TrimIsInfix(s);
    TrimSteps(r);
    if r != [] {
      assert TrimStart(r) == r;
      assert TrimEnd(r) == r;
    }
  }

  /** Puts one character in front of the pieces of the rest of a string: a
      separator opens a new empty piece, any other character joins the
      first piece. */
  function ConsPiece(c: char, sep: char, rest: seq<string>): (r: seq<string>)
    requires |rest| >= 1
    ensures |r| >= 1
  {
    if c == sep then [""] + rest else [[c] + rest[0]] + rest[1..]
  }

  /** `s.split(sep)` for a one-character separator: the pieces between
      separators, empty pieces included; splitting "" gives [""]. */
  function Split(s: string, sep: char): (r: seq<string>)
    ensures |r| >= 1
    ensures forall k :: 0 <= k < |r| ==> sep !in r[k]
  {
    if s == [] then [""] else ConsPiece(s[0], sep, Split(s[1..], sep))
  }

  /** The number of characters in all of `parts`. */
  function TotalLength(parts: seq<string>): nat {
    if parts == [] then 0 else |parts[0]| + TotalLength(parts[1..])
  }

  /** `parts.join(sep)`: every part once, in order, with one separator
      between neighbours and none at either end. */
  function Join(parts: seq<string>, sep: string): (r: string)
    ensures parts == [] ==> r == ""
    ensures parts != [] ==> |r| == TotalLength(parts) + (|parts| - 1) * |sep|
  {
    if parts == [] then ""
    else if |parts| == 1 then parts[0]
    else parts[0] + sep + Join(parts[1..], sep)
  }

  /** `join` on two, three or five parts, written out. */
  lemma JoinPieces(parts: seq<string>, sep: string)
    ensures |parts| == 2 ==> Join(parts, sep) == parts[0] + sep + parts[1]
    ensures |parts| == 3 ==> Join(parts, sep) == parts[0] + sep + parts[1] + sep + parts[2]
    ensures |parts| == 5 ==> Join(parts, sep) == parts[0] + sep + parts[1] + sep + parts[2] + sep + parts[3] + sep + parts[4]
  {
    var n := |parts|;
    if n >= 2 {
      assert Join(parts[n - 1..], sep) == parts[n - 1];
      assert parts[n - 2..][1..] == parts[n - 1..];
      assert Join(parts[n - 2..], sep) == parts[n - 2] + sep + parts[n - 1];
      if n >= 3 {
        assert parts[n - 3..][1..] == parts[n - 2..];
        assert Join(parts[n - 3..], sep) == parts[n - 3] + sep + parts[n - 2] + sep + parts[n - 1];
      }
      if n == 5 {
        assert parts[1..][1..] == parts[2..];
        assert Join(parts[1..], sep) == parts[1] + sep + Join(parts[2..], sep);
      }
    }
  }

  /** A first line followed by more lines, none holding the separator,
      splits back into exactly those lines. */
  lemma SplitJoinedLines(first: string, rest: seq<string>, sep: char)
    requires sep !in first && forall k :: 0 <= k < |rest| ==> sep !in rest[k]
    ensures Split(Join([first] + rest, [sep]), sep) == [first] + rest
  {
    var lines := [first] + rest;
    forall k | 0 <= k < |lines| ensures sep !in lines[k] {
      if k > 0 {
        assert lines[k] == rest[k - 1];
      }
    }
    JoinSplit(lines, sep);
  }

  /** A character in neither the parts nor the separator is not in their
      join. */
  lemma {:induction false} JoinKeepsOut(parts: seq<string>, sep: string, c: char)
    requires c !in sep && forall k :: 0 <= k < |parts| ==> c !in parts[k]
    ensures c !in Join(parts, sep)
  {
    if |parts| > 1 {
      JoinKeepsOut(parts[1..], sep, c);
    }
  }

  /** Splitting and joining back with the same separator gives the string
      back: no character is lost or invented by `Split`. */
  lemma {:induction false} SplitJoin(s: string, sep: char)
    ensures Join(Split(s, sep), [sep]) == s
  {
    if s != [] {
      var rest := Split(s[1..], sep);
      SplitJoin(s[1..], sep);
      if s[0] == sep {
        assert Split(s, sep) == [""] + rest;
        assert ([""] + rest)[1..] == rest;
      } else {
        var head := [s[0]] + rest[0];
        assert Split(s, sep) == [head] + rest[1..];
        if |rest| == 1 {
          assert Join(Split(s, sep), [sep]) == head;
        } else {
          assert ([head] + rest[1..])[1..] == rest[1..];
          assert Join(rest, [sep]) == rest[0] + [sep] + Join(rest[1..], [sep]);
        }
      }
    }
  }

  /** A string without the separator splits into itself alone. */
  lemma {:induction false} SplitNoSep(s: string, sep: char)
    requires sep !in s
    ensures Split(s, sep) == [s]
  {
    if s != [] {
      assert s == [s[0]] + s[1..];
      SplitNoSep(s[1..], sep);
    }
  }

  /** One step of `Split`. */
  lemma SplitCons(c: char, s: string, sep: char)
    ensures Split([c] + s, sep) == ConsPiece(c, sep, Split(s, sep))
  {
    assert ([c] + s)[1..] == s;
  }

  /** A character put in front of the first of two runs of pieces lands in
      the first run. */
  lemma ConsPieceAppend(c: char, sep: char, left: seq<string>, right: seq<string>)
    requires |left| >= 1
    ensures ConsPiece(c, sep, left + right) == ConsPiece(c, sep, left) + right
  {
    if c != sep {
      assert (left + right)[0] == left[0];
      assert (left + right)[1..] == left[1..] + right;
    }
  }

  /** Splitting around one separator splits each side independently. */
  lemma {:induction false} SplitAround(a: string, sep: char, b: string)
    ensures Split(a + [sep] + b, sep) == Split(a, sep) + Split(b, sep)
  {
    if a == [] {
      assert a + [sep] + b == [sep] + b;
      SplitCons(sep, b, sep);
    } else {
      var x := a[1..] + [sep] + b;
      assert a + [sep] + b == [a[0]] + x;
      SplitAround(a[1..], sep, b);
      SplitCons(a[0], x, sep);
      ConsPieceAppend(a[0], sep, Split(a[1..], sep), Split(b, sep));
    }
  }

  /** Joining pieces that do not contain the separator and splitting again
      gives the pieces back. */
  lemma {:induction false} JoinSplit(parts: seq<string>, sep: char)
    requires |parts| >= 1
    requires forall k :: 0 <= k < |parts| ==> sep !in parts[k]
    ensures Split(Join(parts, [sep]), sep) == parts
  {
    if |parts| == 1 {
      SplitNoSep(parts[0], sep);
    } else {
      JoinSplit(parts[1..], sep);
      SplitNoSep(parts[0], sep);
      SplitAround(parts[0], sep, Join(parts[1..], [sep]));
      assert [parts[0]] + parts[1..] == parts;
    }
  }

  predicate StartsWith(s: string, prefix: string) {
    |prefix| <= |s| && s[..|prefix|] == prefix
  }

  predicate OccursAt(s: string, p: string, k: nat) {
    k + |p| <= |s| && s[k..k + |p|] == p
  }

  /** `s.indexOf(p, from)`: the first position at or after `from` where `p`
      occurs, or -1 when there is none. */
  function IndexOfFrom(s: string, p: string, from: nat): (r: int)
    ensures r == -1 || (from <= r && OccursAt(s, p, r))
    ensures r != -1 ==> forall k: nat :: from <= k < r ==> !OccursAt(s, p, k)
    ensures r == -1 ==> forall k: nat :: from <= k ==> !OccursAt(s, p, k)
    decreases |s| - from
  {
    if from + |p| > |s| then -1
    else if s[from..from + |p|] == p then from
    else IndexOfFrom(s, p, from + 1)
  }

  /** `s.replace(p, q)` with a string pattern: only the first occurrence of
      `p` is replaced. */
  function ReplaceFirst(s: string, p: string, q: string): (r: string)
    ensures (forall k: nat :: !OccursAt(s, p, k)) ==> r == s
    ensures forall i: nat :: OccursAt(s, p, i) && (forall k: nat :: k < i ==> !OccursAt(s, p, k))
                            ==> r == s[..i] + q + s[i + |p|..]
  {
    var i := IndexOfFrom(s, p, 0);
    if i == -1 then s else s[..i] + q + s[i + |p|..]
  }

  /** When `s` starts with `p`, removing the first occurrence of `p` removes
      exactly that prefix. */
  lemma ReplacePrefix(s: string, p: string)
    requires StartsWith(s, p)
    ensures ReplaceFirst(s, p, "") == s[|p|..]
  {
    assert s[0..|p|] == p;
    assert IndexOfFrom(s, p, 0) == 0;
  }

  /** `s.replace(/\s+/g, '')`: every whitespace character removed. */
  function RemoveSpaces(s: string): (r: string)
    ensures |r| <= |s|
    ensures forall k :: 0 <= k < |r| ==> !IsSpace(r[k])
    ensures forall c :: c in r <==> c in s && !IsSpace(c)
  {
    if s == [] then []
    else if IsSpace(s[0]) then RemoveSpaces(s[1..])
    else [s[0]] + RemoveSpaces(s[1..])
  }

  /** Removing whitespace works piece by piece, so the characters that stay
      keep their order. */
  lemma {:induction false} RemoveSpacesAppend(a: string, b: string)
    ensures RemoveSpaces(a + b) == RemoveSpaces(a) + RemoveSpaces(b)
  {
    if a == [] {
      assert a + b == b;
    } else {
      assert (a + b)[0] == a[0];
      assert (a + b)[1..] == a[1..] + b;
      RemoveSpacesAppend(a[1..], b);
    }
  }

  /** `s.replace(/"/g, '""')`: every double quote doubled. */
  function DoubleQuotes(s: string): (r: string)
    ensures |r| >= |s|
  {
    if s == [] then []
    else if s[0] == '"' then "\"\"" + DoubleQuotes(s[1..])
    else [s[0]] + DoubleQuotes(s[1..])
  }

  /** Reads a quoted CSV field's body back: a pair of quotes stands for one
      quote, and a quote standing alone ends the field too early (None). */
  function UndoubleQuotes(t: string): (r: Option<string>)
  {
    if t == [] then Some([])
    else if t[0] == '"' then
      if |t| >= 2 && t[1] == '"' then
        match UndoubleQuotes(t[2..])
        case Some(rest) => Some("\"" + rest)
        case None => None
      else None
    else
      match UndoubleQuotes(t[1..])
      case Some(rest) => Some([t[0]] + rest)
      case None => None
  }

  /** Doubling quotes is undone by reading pairs back: the escaped field
      carries the original text exactly. */
  lemma {:induction false} DoubleQuotesRoundTrip(s: string)
    ensures UndoubleQuotes(DoubleQuotes(s)) == Some(s)
  {
    if s != [] {
      DoubleQuotesRoundTrip(s[1..]);
      var t := DoubleQuotes(s);
      if s[0] == '"' {
        assert t == "\"\"" + DoubleQuotes(s[1..]);
        assert t[0] == '"' && t[1] == '"' && t[2..] == DoubleQuotes(s[1..]);
        assert "\"" + s[1..] == s;
      } else {
        assert t == [s[0]] + DoubleQuotes(s[1..]);
        assert t[1..] == DoubleQuotes(s[1..]);
        assert [s[0]] + s[1..] == s;
      }
    }
  }

  /** Reading pairs back never lengthens a field, and shortens one that
      holds a quote. */
  lemma {:induction false} UndoubleShrinks(t: string)
    ensures UndoubleQuotes(t).Some? ==> |UndoubleQuotes(t).value| <= |t|
    ensures UndoubleQuotes(t).Some? && '"' in t ==> |UndoubleQuotes(t).value| < |t|
  {
    if t != [] {
      if t[0] == '"' {
        if |t| >= 2 && t[1] == '"' {
          UndoubleShrinks(t[2..]);
        }
      } else {
        UndoubleShrinks(t[1..]);
        assert '"' in t ==> '"' in t[1..];
      }
    }
  }

  /** A text holding a quote, put in a field without doubling, does not read
      back as itself: either a lone quote ends the field, or a pair is read
      as one quote. */
  lemma UnescapedQuoteLost(t: string)
    requires '"' in t
    ensures UndoubleQuotes(t) != Some(t)
  {
    UndoubleShrinks(t);
  }

  /** A field containing a quote that was not doubled cannot be read back. */
  lemma LoneQuoteUnreadable()
    ensures UndoubleQuotes("a\"b") == None
  {
    assert "a\"b"[1..] == "\"b";
  }

  function DigitChar(d: nat): char
    requires d < 10
  {
    "0123456789"[d]
  }

  /** The decimal digits of a natural number, without leading zeros. */
  function NatToDecimal(n: nat): (r: string)
    ensures |r| >= 1
    ensures forall k :: 0 <= k < |r| ==> '0' <= r[k] <= '9'
    ensures r[0] == '0' ==> n == 0
  {
    if n < 10 then [DigitChar(n)] else NatToDecimal(n / 10) + [DigitChar(n % 10)]
  }

  /** JavaScript's `String(n)` for an integer-valued number. */
  function IntToDecimal(n: int): string {
    if n < 0 then "-" + NatToDecimal(-n) else NatToDecimal(n)
  }

  function DecimalValue(s: string): nat
    requires forall k :: 0 <= k < |s| ==> '0' <= s[k] <= '9'
  {
    if s == [] then 0 else 10 * DecimalValue(s[..|s| - 1]) + (s[|s| - 1] as int - '0' as int)
  }

  /** The decimal text of a number reads back as that number. */
  lemma {:induction false} DecimalRoundTrip(n: nat)
    ensures DecimalValue(NatToDecimal(n)) == n
  {
    if n >= 10 {
      DecimalRoundTrip(n / 10);
      var r := NatToDecimal(n);
      assert r[..|r| - 1] == NatToDecimal(n / 10);
    }
  }

  /** The characters `encodeURIComponent` leaves as they are. */
  predicate IsUnreserved(c: char) {
    ('A' <= c <= 'Z') || ('a' <= c <= 'z') || ('0' <= c <= '9')
    || c == '-' || c == '_' || c == '.' || c == '!' || c == '~' || c == '*'
    || c == '\'' || c == '(' || c == ')'
  }

  function HexDigit(d: nat): (c: char)
    requires d < 16
    ensures IsUnreserved(c)
  {
    "0123456789ABCDEF"[d]
  }

  /** The UTF-8 encoding of one Unicode scalar value. */
  function Utf8(c: char): (bytes: seq<nat>)
    ensures 1 <= |bytes| <= 4
    ensures forall k :: 0 <= k < |bytes| ==> bytes[k] < 256
  {
    var cp := c as int;
    if cp < 0x80 then [cp]
    else if cp < 0x800 then [0xC0 + cp / 64, 0x80 + cp % 64]
    else if cp < 0x10000 then [0xE0 + cp / 4096, 0x80 + (cp / 64) % 64, 0x80 + cp % 64]
    else [0xF0 + cp / 262144, 0x80 + (cp / 4096) % 64, 0x80 + (cp / 64) % 64, 0x80 + cp % 64]
  }

  /** `%XX` for every byte, upper-case hexadecimal. */
  function PercentBytes(bytes: seq<nat>): (r: string)
    requires forall k :: 0 <= k < |bytes| ==> bytes[k] < 256
    ensures |r| == 3 * |bytes|
    ensures forall k :: 0 <= k < |r| ==> r[k] == '%' || IsUnreserved(r[k])
  {
    if bytes == [] then ""
    else ['%', HexDigit(bytes[0] / 16), HexDigit(bytes[0] % 16)] + PercentBytes(bytes[1..])
  }

  /** `encodeURIComponent`: unreserved characters stay, every other
      character becomes the percent-escapes of its UTF-8 bytes. */
  function EncodeURIComponent(s: string): (r: string)
    ensures forall k :: 0 <= k < |r| ==> r[k] == '%' || IsUnreserved(r[k])
    ensures |r| >= |s|
  {
    if s == [] then ""
    else
      (if IsUnreserved(s[0]) then [s[0]] else PercentBytes(Utf8(s[0])))
      + EncodeURIComponent(s[1..])
  }

  /** Encoded text never holds the characters that delimit a query string, so
      it can be placed between them and split back out. */
  lemma EncodedHasNoDelimiters(s: string)
    ensures '&' !in EncodeURIComponent(s)
    ensures '?' !in EncodeURIComponent(s)
    ensures '=' !in EncodeURIComponent(s)
    ensures '#' !in EncodeURIComponent(s)
  {
  }
}
