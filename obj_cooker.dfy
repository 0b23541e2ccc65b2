/**
 * The OBJ-to-header cooker (`cook` in models/obj_cooker.c).
 *
 * `cook` reads a whole .obj file into a NUL-terminated buffer, cuts it into
 * lines with `strtok_r(…, "\n", …)` and each line into words with
 * `strtok_r(…, " ", …)`, and dispatches on the first character of the first
 * word of the line.  What it prints with `fprintf` is modelled as the text
 * appended to the output; the file I/O around it is left out.  The three
 * numeric conversions whose result is only ever printed (`%10f` of
 * `strtof(word)`, `%3d` of `srgb2linear(strtof(word))`, and `%5ld` of a
 * long) are the uninterpreted functions of a `Formats` value; `strtol`, whose
 * result the cooker computes with, is modelled exactly.
 */
module ObjCooker {
  import opened Wrappers

  /** The printing of numbers, left uninterpreted. */
  datatype Formats = Formats(
    position: string -> string,  // %10f applied to strtof(word)
    color: string -> string,     // %3d applied to srgb2linear(strtof(word))
    index: int -> string)        // %5ld applied to a long

  // ---------------------------------------------------------------------
  // strtok_r

  /** Length of the longest prefix of `s` free of `d`. */
  function TokenEnd(s: string, d: char): (n: nat)
    ensures n <= |s|
    ensures forall k :: 0 <= k < n ==> s[k] != d
    ensures n < |s| ==> s[n] == d
  {
    if s == [] || s[0] == d then 0 else 1 + TokenEnd(s[1..], d)
  }

  /**
   * The tokens `strtok_r` yields on `s` with the single delimiter `d`:
   * the maximal runs of non-delimiters, in order.
   */
  function Split(s: string, d: char): (ts: seq<string>)
    ensures forall t :: t in ts ==> t != [] && d !in t
    decreases |s|
  {
    if s == [] then []
    else if s[0] == d then Split(s[1..], d)
    else
      var n := TokenEnd(s, d);
      [s[..n]] + Split(s[n..], d)
  }

  /** A prefix free of `d` followed by `d` (or by nothing) is measured by TokenEnd. */
  lemma {:induction false} TokenEndAt(s: string, d: char, n: nat)
    requires n <= |s|
    requires forall k :: 0 <= k < n ==> s[k] != d
    requires n == |s| || s[n] == d
    ensures TokenEnd(s, d) == n
  {
    if n > 0 {
      TokenEndAt(s[1..], d, n - 1);
    }
  }

  /** A token of `a + c` ends inside `a` if `a` holds a delimiter, and otherwise runs on into `c`. */
  lemma {:induction false} TokenEndConcat(a: string, c: string, d: char)
    ensures TokenEnd(a + c, d) == if TokenEnd(a, d) < |a| then TokenEnd(a, d) else |a| + TokenEnd(c, d)
  {
    if a != [] && a[0] != d {
      assert (a + c)[1..] == a[1..] + c;
      TokenEndConcat(a[1..], c, d);
    } else if a == [] {
      assert a + c == c;
    }
  }

  /** A run of delimiters separates tokens and produces no empty token. */
  lemma {:induction false} SplitAtDelimiter(a: string, b: string, d: char)
    ensures Split(a + [d] + b, d) == Split(a, d) + Split(b, d)
    decreases |a|
  {
    var s := a + [d] + b;
    if a == [] {
      assert s[1..] == b;
    } else if a[0] == d {
      assert s[1..] == a[1..] + [d] + b;
      SplitAtDelimiter(a[1..], b, d);
    } else {
      var n := TokenEnd(a, d);
      TokenEndConcat(a, [d] + b, d);
      assert s == a + ([d] + b);
      if n < |a| {
        assert s[..n] == a[..n];
        assert s[n..] == a[n..] + [d] + b;
        SplitAtDelimiter(a[n..], b, d);
      } else {
        TokenEndAt([d] + b, d, 0);
        assert s[..n] == a;
        assert s[n..] == [d] + b;
        assert ([d] + b)[1..] == b;
        assert Split(s, d) == [a] + Split(b, d);
        assert a[..n] == a && a[n..] == [];
        assert Split(a, d) == [a];
      }
    }
  }

  /** A non-empty text without a delimiter is one token. */
  lemma SplitSingleToken(t: string, d: char)
    requires t != [] && d !in t
    ensures Split(t, d) == [t]
  {
    TokenEndAt(t, d, |t|);
    assert t[..|t|] == t && t[|t|..] == [];
  }

  /** Splitting skips a leading delimiter. */
  lemma SplitSkipsDelimiter(s: string, i: nat, d: char)
    requires i < |s| && s[i] == d
    ensures Split(s[i..], d) == Split(s[i + 1..], d)
  {
    assert s[i..][1..] == s[i + 1..];
  }

  /** `strspn(s + pos, delim)`: skips the delimiters at `pos`, which yield no token. */
  method SkipDelimiters(s: string, pos: nat, d: char) returns (i: nat)
    requires pos <= |s|
    ensures pos <= i <= |s| && (i < |s| ==> s[i] != d)
    ensures Split(s[pos..], d) == Split(s[i..], d)
  {
    i := pos;
    while i < |s| && s[i] == d
      invariant pos <= i <= |s|
      invariant Split(s[pos..], d) == Split(s[i..], d)
    {
      SplitSkipsDelimiter(s, i, d);
      i := i + 1;
    }
  }

  /** `strcspn(s + i, delim)`: finds the end of the token starting at `i`. */
  method TokenLength(s: string, i: nat, d: char) returns (j: nat)
    requires i <= |s|
    ensures i <= j <= |s| && j - i == TokenEnd(s[i..], d)
  {
    j := i;
    while j < |s| && s[j] != d
      invariant i <= j <= |s|
      invariant forall k :: i <= k < j ==> s[k] != d
    {
      j := j + 1;
    }
    TokenEndAt(s[i..], d, j - i);
  }

  /**
   * One call of `strtok_r` on the text from `pos` on: it skips delimiters,
   * returns NULL at the end of the text, and otherwise returns the run up to
   * the next delimiter, which it overwrites so that the next call starts
   * after it.
   */
  method StrTokR(s: string, pos: nat, d: char) returns (tok: Option<string>, next: nat)
    requires pos <= |s|
    ensures next <= |s|
    ensures tok.None? <==> Split(s[pos..], d) == []
    ensures tok.Some? ==> Split(s[pos..], d) == [tok.value] + Split(s[next..], d)
  {
    var i := SkipDelimiters(s, pos, d);
    if i == |s| {
      assert s[i..] == [];
      return None, i;
    }
    var j := TokenLength(s, i, d);
    assert s[i..][..j - i] == s[i..j];
    assert s[i..][j - i..] == s[j..];
    tok := Some(s[i..j]);
    if j < |s| {
      SplitSkipsDelimiter(s, j, d);
      next := j + 1;
    } else {
      next := j;
    }
  }

  // ---------------------------------------------------------------------
  // strtol(word, NULL, 10) and strlcpy

  const LongMin: int := -0x8000_0000_0000_0000
  const LongMax: int := 0x7fff_ffff_ffff_ffff

  /** `isspace` in the C locale: space, \t, \n, \v, \f, \r. */
  predicate IsSpace(c: char)
  {
    c == ' ' || '\t' <= c <= '\r'
  }

  predicate IsDigit(c: char)
  {
    '0' <= c <= '9'
  }

  /** Number of leading characters satisfying `isspace`. */
  function LeadingSpaces(s: string): (n: nat)
    ensures n <= |s|
  {
    if s != [] && IsSpace(s[0]) then 1 + LeadingSpaces(s[1..]) else 0
  }

  /** Number of leading decimal digits. */
  function LeadingDigits(s: string): (n: nat)
    ensures n <= |s|
    ensures forall k :: 0 <= k < n ==> IsDigit(s[k])
    ensures n < |s| ==> !IsDigit(s[n])
  {
    if s != [] && IsDigit(s[0]) then 1 + LeadingDigits(s[1..]) else 0
  }

  /** The value of a string of decimal digits. */
  function DecimalValue(ds: string): nat
    requires forall k :: 0 <= k < |ds| ==> IsDigit(ds[k])
  {
    if ds == [] then 0
    else
      var digit := ds[|ds| - 1] as int - '0' as int;
      assert IsDigit(ds[|ds| - 1]);
      10 * DecimalValue(ds[..|ds| - 1]) + digit
  }

  /**
   * `strtol(word, NULL, 10)`: optional white space, an optional sign, then
   * the longest run of digits; 0 when there is none; clamped to the range of
   * `long` on overflow.
   */
  function StrToL(w: string): (n: int)
    ensures LongMin <= n <= LongMax
  {
    var rest := w[LeadingSpaces(w)..];
    var negative := rest != [] && rest[0] == '-';
    var body := if rest != [] && (rest[0] == '-' || rest[0] == '+') then rest[1..] else rest;
    var v: int := DecimalValue(body[..LeadingDigits(body)]);
    if negative then (if -v < LongMin then LongMin else -v)
    else (if v > LongMax then LongMax else v)
  }

  /** Only the leading integer of a word is read: `7/2/3` reads as 7. */
  lemma StrToLReadsLeadingInteger(ds: string, rest: string)
    requires ds != [] && forall k :: 0 <= k < |ds| ==> IsDigit(ds[k])
    requires rest == [] || !IsDigit(rest[0])
    requires DecimalValue(ds) <= LongMax
    ensures StrToL(ds + rest) == DecimalValue(ds)
  {
    var w := ds + rest;
    assert !IsSpace(w[0]) && w[0] != '-' && w[0] != '+';
    assert LeadingSpaces(w) == 0;
    LeadingDigitsOf(ds, rest);
    assert w[..|ds|] == ds;
  }

  lemma {:induction false} LeadingDigitsOf(ds: string, rest: string)
    requires forall k :: 0 <= k < |ds| ==> IsDigit(ds[k])
    requires rest == [] || !IsDigit(rest[0])
    ensures LeadingDigits(ds + rest) == |ds|
  {
    if ds != [] {
      assert (ds + rest)[1..] == ds[1..] + rest;
      LeadingDigitsOf(ds[1..], rest);
    } else {
      assert ds + rest == rest;
    }
  }

  lemma FaceIndexExample()
    ensures StrToL("7/2/3") - 1 == 6
  {
    assert "7/2/3" == "7" + "/2/3";
    assert DecimalValue("7") == 7 by {
      assert "7"[..0] == [];
    }
    StrToLReadsLeadingInteger("7", "/2/3");
  }

  /** Size of the `model_name` buffer. */
  const ModelNameSize: nat := 999

  /** `strlcpy(model_name, word, sizeof(model_name))`: at most 998 characters are kept. */
  function ModelName(word: string): (name: string)
    ensures |name| < ModelNameSize
    ensures name <= word
    ensures |word| < ModelNameSize ==> name == word
    ensures |word| >= ModelNameSize ==> |name| == ModelNameSize - 1
  {
    if |word| < ModelNameSize then word else word[..ModelNameSize - 1]
  }

  // ---------------------------------------------------------------------
  // What is printed

  /** What an `o` line prints for its word at `index`. */
  function ObjectWordText(index: nat, word: string): string
  {
    if index == 1 then "gl_geo_Vtx model_vtx_" + word + "[] = {\n" else ""
  }

  /** What a `v` line prints for its word at `index`: three positions, then three colours. */
  function VertexWordText(index: nat, word: string, f: Formats): string
  {
    if index == 0 then "  {"
    else if index == 1 then " { " + f.position(word) + ","
    else if index == 2 then " " + f.position(word) + ","
    else if index == 3 then " " + f.position(word) + " }, "
    else if index == 4 then " { " + f.color(word) + ","
    else if index == 5 then " " + f.color(word) + ","
    else if index == 6 then " " + f.color(word) + " } "
    else ""
  }

  /** What an `s` line prints for its word at `index`. */
  function SmoothWordText(index: nat, name: string): string
  {
    if index == 0 then "};\n\n" + "gl_Tri model_tri_" + name + "[] = {\n" else ""
  }

  /** The zero-based index an `f` line prints for a word: its leading integer minus one. */
  function FaceIndex(w: string): int
  {
    StrToL(w) - 1
  }

  /** What an `f` line prints for its word at `index`: three zero-based vertex indices. */
  function FaceWordText(index: nat, word: string, f: Formats): string
  {
    if index == 1 then "  { " + f.index(FaceIndex(word)) + ","
    else if index == 2 then " " + f.index(FaceIndex(word)) + ","
    else if index == 3 then " " + f.index(FaceIndex(word)) + " },\n"
    else ""
  }

  /** What the body of the inner loop prints for the word at `index` of a line of kind `op`. */
  function WordText(op: char, index: nat, word: string, name: string, f: Formats): string
  {
    match op
    case 'o' => ObjectWordText(index, word)
    case 'v' => VertexWordText(index, word, f)
    case 's' => SmoothWordText(index, name)
    case 'f' => FaceWordText(index, word, f)
    case _ => ""
  }

  /** What the inner loop prints for the words of `ws` from number `from` on. */
  function WordsText(op: char, ws: seq<string>, from: nat, name: string, f: Formats): string
    decreases |ws| - from
  {
    if from >= |ws| then "" else WordText(op, from, ws[from], name, f) + WordsText(op, ws, from + 1, name, f)
  }

  /** The kind of a line: the first character of its first word. */
  function Kind(ws: seq<string>): char
    requires ws != [] && ws[0] != []
  {
    ws[0][0]
  }

  /** What `cook` prints for one line split into the words `ws`. */
  function LineText(ws: seq<string>, name: string, f: Formats): string
    requires ws != [] && ws[0] != []
  {
    if Kind(ws) == 'v' then WordsText('v', ws, 0, name, f) + "},\n" else WordsText(Kind(ws), ws, 0, name, f)
  }

  /** The model name after a line: an `o` line with a second word records it. */
  function NameAfter(ws: seq<string>, name: string): string
  {
    if |ws| > 1 && ws[0] != [] && ws[0][0] == 'o' then ModelName(ws[1]) else name
  }

  /** `cook` dereferences the first word of every line, so every line must have one. */
  predicate EveryLineHasAWord(lines: seq<string>)
  {
    forall l :: l in lines ==> Split(l, ' ') != []
  }

  /** What `cook` prints for `lines`, starting with the model name `name`. */
  function CookLines(lines: seq<string>, name: string, f: Formats): string
    requires EveryLineHasAWord(lines)
  {
    if lines == [] then ""
    else
      var ws := Split(lines[0], ' ');
      assert lines[0] in lines && ws[0] in ws;
      LineText(ws, name, f) + CookLines(lines[1..], NameAfter(ws, name), f)
  }

  /** The model name recorded after `lines`. */
  function NameAfterLines(lines: seq<string>, name: string): string
  {
    if lines == [] then name else NameAfterLines(lines[1..], NameAfter(Split(lines[0], ' '), name))
  }

  /** The text `strtok_r` sees: the buffer up to its first NUL byte. */
  function UpToNul(buffer: string): (text: string)
    ensures text <= buffer && '\0' !in text
    ensures |text| < |buffer| ==> buffer[|text|] == '\0'
  {
    buffer[..TokenEnd(buffer, '\0')]
  }

  /** The lines of the file contents. */
  function Lines(buffer: string): seq<string>
  {
    Split(UpToNul(buffer), '\n')
  }

  /**
   * The inputs `cook` is defined on: at least one non-empty line (the first
   * `strtok_r` would return NULL) and a word on every line (`word[0]` would
   * read through NULL).
   */
  predicate Cookable(buffer: string)
  {
    Lines(buffer) != [] && EveryLineHasAWord(Lines(buffer))
  }

  /** The whole header `cook` writes for the file contents `buffer`. */
  function Cook(buffer: string, f: Formats): (out: string)
    requires Cookable(buffer)
    ensures |out| >= 3 && out[|out| - 3..] == "};\n"
  {
    CookLines(Lines(buffer), "", f) + "};\n"
  }

  // ---------------------------------------------------------------------
  // Properties of the printed text

  /** Words from `k` on that print nothing add nothing to the line. */
  lemma {:induction false} WordsTextSilentTail(op: char, ws: seq<string>, k: nat, name: string, f: Formats)
    requires forall i :: k <= i < |ws| ==> WordText(op, i, ws[i], name, f) == ""
    ensures WordsText(op, ws, k, name, f) == ""
    decreases |ws| - k
  {
    if k < |ws| {
      WordsTextSilentTail(op, ws, k + 1, name, f);
    }
  }

  /** What is printed from word `k` on depends only on the words from `k` on. */
  lemma {:induction false} WordsTextFromSuffix(op: char, ws: seq<string>, ws': seq<string>, k: nat, name: string, f: Formats)
    requires |ws| == |ws'| && k <= |ws| && ws[k..] == ws'[k..]
    ensures WordsText(op, ws, k, name, f) == WordsText(op, ws', k, name, f)
    decreases |ws| - k
  {
    if k < |ws| {
      assert ws[k] == ws[k..][0] == ws'[k];
      assert ws[k + 1..] == ws[k..][1..] == ws'[k + 1..];
      WordsTextFromSuffix(op, ws, ws', k + 1, name, f);
    }
  }

  /**
   * A line's kind is the first character of its first word and nothing else:
   * a `vn` or `vt` line prints and records exactly what a `v` line with the
   * same later words does.
   */
  lemma KindIsFirstCharacter(ws: seq<string>, ws': seq<string>, name: string, f: Formats)
    requires ws != [] && ws[0] != [] && ws' != [] && ws'[0] != []
    requires ws[0][0] == ws'[0][0] && ws[1..] == ws'[1..]
    ensures LineText(ws, name, f) == LineText(ws', name, f)
    ensures NameAfter(ws, name) == NameAfter(ws', name)
  {
    assert |ws| == |ws[1..]| + 1 == |ws'|;
    WordsTextFromSuffix(Kind(ws), ws, ws', 1, name, f);
    if |ws| > 1 {
      assert ws[1] == ws[1..][0] == ws'[1];
    }
  }

  /** A normal line `vn x y z` is cooked as the vertex line `v x y z`. */
  lemma NormalLineCookedAsVertex(rest: seq<string>, name: string, f: Formats)
    ensures LineText(["vn"] + rest, name, f) == LineText(["v"] + rest, name, f)
  {
    KindIsFirstCharacter(["vn"] + rest, ["v"] + rest, name, f);
  }

  /** An `o` line prints the vertex array header named by its second word and records that word. */
  lemma ObjectLine(ws: seq<string>, name: string, f: Formats)
    requires |ws| >= 2 && ws[0] != [] && Kind(ws) == 'o'
    ensures LineText(ws, name, f) == "gl_geo_Vtx model_vtx_" + ws[1] + "[] = {\n"
    ensures NameAfter(ws, name) == ModelName(ws[1])
  {
    WordsTextSilentTail('o', ws, 2, name, f);
    var header := "gl_geo_Vtx model_vtx_" + ws[1] + "[] = {\n";
    assert WordsText('o', ws, 1, name, f) == header + "" == header;
    assert WordsText('o', ws, 0, name, f) == "" + header == header;
  }

  /** An `s` line closes the vertex array and opens the triangle array of the recorded model. */
  lemma SmoothLine(ws: seq<string>, name: string, f: Formats)
    requires ws != [] && ws[0] != [] && Kind(ws) == 's'
    ensures LineText(ws, name, f) == "};\n\n" + "gl_Tri model_tri_" + name + "[] = {\n"
    ensures NameAfter(ws, name) == name
  {
    WordsTextSilentTail('s', ws, 1, name, f);
  }

  /** A line whose words print nothing except at numbers 1, 2 and 3 prints those three texts in order. */
  lemma {:induction false} ThreeWordsText(op: char, ws: seq<string>, name: string, f: Formats)
    requires |ws| >= 4 && WordText(op, 0, ws[0], name, f) == ""
    requires forall i :: 4 <= i < |ws| ==> WordText(op, i, ws[i], name, f) == ""
    ensures WordsText(op, ws, 0, name, f) ==
      WordText(op, 1, ws[1], name, f) + (WordText(op, 2, ws[2], name, f) + WordText(op, 3, ws[3], name, f))
  {
    WordsTextSilentTail(op, ws, 4, name, f);
    var t1, t2, t3 := WordText(op, 1, ws[1], name, f), WordText(op, 2, ws[2], name, f), WordText(op, 3, ws[3], name, f);
    assert WordsText(op, ws, 3, name, f) == t3 + "" == t3;
    assert WordsText(op, ws, 2, name, f) == t2 + t3;
    assert WordsText(op, ws, 1, name, f) == t1 + (t2 + t3);
    assert WordsText(op, ws, 0, name, f) == "" + (t1 + (t2 + t3));
  }

  /** An `f` line prints its first three indices, each less one; a fourth index or more is dropped. */
  lemma FaceLine(ws: seq<string>, name: string, f: Formats)
    requires |ws| >= 4 && ws[0] != [] && Kind(ws) == 'f'
    ensures LineText(ws, name, f) ==
      ("  { " + f.index(FaceIndex(ws[1])) + ",") + ((" " + f.index(FaceIndex(ws[2])) + ",") +
      (" " + f.index(FaceIndex(ws[3])) + " },\n"))
    ensures NameAfter(ws, name) == name
  {
    ThreeWordsText('f', ws, name, f);
  }

  /** A vertex line opens with `  {` and closes with `},`, whatever its number of words. */
  lemma VertexLineShape(ws: seq<string>, name: string, f: Formats)
    requires ws != [] && ws[0] != [] && Kind(ws) == 'v'
    ensures var t := LineText(ws, name, f);
      |t| >= 6 && t[..3] == "  {" && t[|t| - 3..] == "},\n"
    ensures NameAfter(ws, name) == name
  {
  }

  /** Lines of any other kind (`#`, `mtllib`, `usemtl`, ...) print nothing and record nothing. */
  lemma OtherLineSilent(ws: seq<string>, name: string, f: Formats)
    requires ws != [] && ws[0] != [] && Kind(ws) !in {'o', 'v', 's', 'f'}
    ensures LineText(ws, name, f) == ""
    ensures NameAfter(ws, name) == name
  {
    WordsTextSilentTail(Kind(ws), ws, 0, name, f);
  }

  /** Cooking one more line appends its text, printed with the name recorded by the lines before it. */
  lemma {:induction false} CookLinesAppend(pre: seq<string>, l: string, name: string, f: Formats)
    requires EveryLineHasAWord(pre + [l])
    ensures EveryLineHasAWord(pre) && Split(l, ' ') != [] && Split(l, ' ')[0] != []
    ensures CookLines(pre + [l], name, f) ==
      CookLines(pre, name, f) + LineText(Split(l, ' '), NameAfterLines(pre, name), f)
    decreases |pre|
  {
    assert l in pre + [l];
    assert Split(l, ' ')[0] in Split(l, ' ');
    assert forall x :: x in pre ==> x in pre + [l];
    if pre == [] {
      assert [l][1..] == [];
    } else {
      assert (pre + [l])[1..] == pre[1..] + [l];
      assert (pre + [l])[0] == pre[0];
      CookLinesAppend(pre[1..], l, NameAfter(Split(pre[0], ' '), name), f);
    }
  }

  /** Is `l` a line of kind `c`? */
  predicate LineOfKind(l: string, c: char)
  {
    var ws := Split(l, ' ');
    ws != [] && ws[0] != [] && ws[0][0] == c
  }

  /** Does the line record a model name (an `o` line with a second word)? */
  predicate RecordsName(l: string)
  {
    LineOfKind(l, 'o') && |Split(l, ' ')| > 1
  }

  /** The name after `pre + post` is the name after `post`, started from the name after `pre`. */
  lemma {:induction false} NameAfterLinesConcat(pre: seq<string>, post: seq<string>, name: string)
    ensures NameAfterLines(pre + post, name) == NameAfterLines(post, NameAfterLines(pre, name))
    decreases |pre|
  {
    if pre == [] {
      assert pre + post == post;
    } else {
      assert (pre + post)[1..] == pre[1..] + post;
      assert (pre + post)[0] == pre[0];
      NameAfterLinesConcat(pre[1..], post, NameAfter(Split(pre[0], ' '), name));
    }
  }

  /** Lines that record no name keep the name they were given. */
  lemma {:induction false} NameAfterLinesKeeps(lines: seq<string>, name: string)
    requires forall l :: l in lines ==> !RecordsName(l)
    ensures NameAfterLines(lines, name) == name
    decreases |lines|
  {
    if lines != [] {
      assert lines[0] in lines;
      assert forall l :: l in lines[1..] ==> l in lines;
      NameAfterLinesKeeps(lines[1..], name);
    }
  }

  /**
   * An `s` line names its triangle array after the model of the most recent
   * `o` line before it (as cut to fit `model_name`).
   */
  lemma SmoothLineUsesLatestModel(pre: seq<string>, o: string, mid: seq<string>, s: string, name: string, f: Formats)
    requires EveryLineHasAWord(pre + [o] + mid + [s])
    requires RecordsName(o)
    requires forall l :: l in mid ==> !RecordsName(l)
    requires LineOfKind(s, 's')
    ensures CookLines(pre + [o] + mid + [s], name, f) ==
      CookLines(pre + [o] + mid, name, f) + ("};\n\n" + "gl_Tri model_tri_" + ModelName(Split(o, ' ')[1]) + "[] = {\n")
  {
    CookLinesAppend(pre + [o] + mid, s, name, f);
    NameAfterLinesConcat(pre + [o], mid, name);
    NameAfterLinesKeeps(mid, NameAfterLines(pre + [o], name));
    NameAfterLinesConcat(pre, [o], name);
    assert [o][1..] == [];
    SmoothLine(Split(s, ' '), ModelName(Split(o, ' ')[1]), f);
  }

  // ---------------------------------------------------------------------
  // The loops of `cook`

  /**
   * The body of the inner loop of `cook` for the word `w` at `index` of a
   * line of kind `op`: the chain of `if`s that prints, and the `strlcpy`
   * into `model_name`.
   */
  method EmitWord(op: char, index: nat, w: string, modelName: string, f: Formats)
    returns (printed: string, newName: string)
    ensures printed == WordText(op, index, w, modelName, f)
    ensures newName == if op == 'o' && index == 1 then ModelName(w) else modelName
  {
    // The conditions of the `if`s in `cook` exclude one another; they are
    // grouped here by kind.
    printed, newName := "", modelName;
    if op == 'o' {
      if index == 1 {
        printed := "gl_geo_Vtx model_vtx_" + w + "[] = {\n";
        newName := ModelName(w);
      }
    } else if op == 'v' {
      if index == 0 { printed := "  {"; }
      else if index == 1 { printed := " { " + f.position(w) + ","; }
      else if index == 2 { printed := " " + f.position(w) + ","; }
      else if index == 3 { printed := " " + f.position(w) + " }, "; }
      else if index == 4 { printed := " { " + f.color(w) + ","; }
      else if index == 5 { printed := " " + f.color(w) + ","; }
      else if index == 6 { printed := " " + f.color(w) + " } "; }
    } else if op == 's' {
      if index == 0 {
        printed := "};\n\n";
        printed := printed + "gl_Tri model_tri_" + modelName + "[] = {\n";
      }
    } else if op == 'f' {
      if index == 1 { printed := "  { " + f.index(StrToL(w) - 1) + ","; }
      else if index == 2 { printed := " " + f.index(StrToL(w) - 1) + ","; }
      else if index == 3 { printed := " " + f.index(StrToL(w) - 1) + " },\n"; }
    }
  }

  /** Appending the text of word `k` keeps the inner loop's account of what is printed. */
  lemma EmitStep(op: char, ws: seq<string>, k: nat, printed: string, text: string, name: string, f: Formats)
    requires k < |ws|
    requires printed + WordsText(op, ws, k, name, f) == WordsText(op, ws, 0, name, f)
    requires text == WordText(op, k, ws[k], name, f)
    ensures (printed + text) + WordsText(op, ws, k + 1, name, f) == WordsText(op, ws, 0, name, f)
  {
    var later := WordsText(op, ws, k + 1, name, f);
    assert text + later == WordsText(op, ws, k, name, f);
    assert (printed + text) + later == printed + (text + later);
  }

  /**
   * One pass of the outer loop of `cook`: the inner `strtok_r` loop over the
   * words of `line` with its `index` counter, then the closing `},` of a
   * vertex line.
   */
  method EmitLine(line: string, modelName: string, f: Formats) returns (printed: string, newName: string)
    requires Split(line, ' ') != []
    ensures Split(line, ' ')[0] != []
    ensures printed == LineText(Split(line, ' '), modelName, f)
    ensures newName == NameAfter(Split(line, ' '), modelName)
  {
    ghost var ws := Split(line, ' ');
    var word: Option<string>, wp: nat := StrTokR(line, 0, ' ');
    assert line[0..] == line;
    assert word.value in ws;
    var op := word.value[0];
    var index := 0;
    printed, newName := "", modelName;
    while word.Some?
      invariant wp <= |line|
      invariant index <= |ws|
      invariant word.Some? ==> index < |ws| && ws[index..] == [word.value] + Split(line[wp..], ' ')
      invariant word.None? ==> index == |ws|
      invariant printed + WordsText(op, ws, index, modelName, f) == WordsText(op, ws, 0, modelName, f)
      invariant newName == NameAfter(ws[..index], modelName)
      decreases |ws| - index
    {
      var w := word.value;
      assert w == ws[index];
      var text;
      text, newName := EmitWord(op, index, w, newName, f);
      EmitStep(op, ws, index, printed, text, modelName, f);
      printed := printed + text;
      assert ws[..index + 1][..index] == ws[..index];
      assert ws[index..][1..] == ws[index + 1..];
      index := index + 1;
      word, wp := StrTokR(line, wp, ' ');
    }
    assert ws[..index] == ws;
    if op == 'v' { printed := printed + "},\n"; }
  }

  /**
   * `cook` once its input is in memory: the outer `strtok_r` loop over the
   * lines, the `model_name` buffer carried from line to line, and the final
   * `};`.
   */
  method CookBuffer(buffer: string, f: Formats) returns (out: string)
    requires Cookable(buffer)
    ensures out == Cook(buffer, f)
  {
    var text := UpToNul(buffer);
    ghost var lines := Split(text, '\n');
    out := "";
    var modelName := "";
    var line: Option<string>, lp: nat := StrTokR(text, 0, '\n');
    assert text[0..] == text;
    ghost var rest := lines;
    while line.Some?
      invariant lp <= |text|
      invariant line.Some? ==> rest == [line.value] + Split(text[lp..], '\n')
      invariant line.None? ==> rest == []
      invariant forall l :: l in rest ==> l in lines
      invariant out + CookLines(rest, modelName, f) == CookLines(lines, "", f)
      decreases |rest|
    {
      assert line.value in lines;
      var printed;
      printed, modelName := EmitLine(line.value, modelName, f);
      out := out + printed;
      assert rest[1..] == Split(text[lp..], '\n');
      rest := rest[1..];
      line, lp := StrTokR(text, lp, '\n');
    }
    out := out + "};\n";
  }
}
