/**
 * The few pieces of Python string behaviour the bot relies on: `str.strip()`,
 * `startswith`, `in` on strings, `split(sep)`, `int(text)` and `str(n)`, and
 * the way aiogram recognises a `/command` in a message.
 */
module Text {
  import opened Optional

  /** Python's `str.isspace()` for a single character. */
  predicate IsSpace(c: char) {
    c == ' ' || ('\t' <= c <= '\r') || ('\U{001C}' <= c <= '\U{001F}')
    || c == '\U{0085}' || c == '\U{00A0}' || c == '\U{1680}'
    || ('\U{2000}' <= c <= '\U{200A}') || c == '\U{2028}' || c == '\U{2029}'
    || c == '\U{202F}' || c == '\U{205F}' || c == '\U{3000}'
  }

  predicate IsDigit(c: char) {
    '0' <= c <= '9'
  }

  /** `s.lstrip()` */
  function TrimStart(s: string): (r: string)
    ensures |r| <= |s| && r == s[|s| - |r|..]
    ensures r == [] || !IsSpace(r[0])
    ensures forall i :: 0 <= i < |s| - |r| ==> IsSpace(s[i])
    decreases |s|
  {
    if |s| > 0 && IsSpace(s[0]) then TrimStart(s[1..]) else s
  }

  /** `s.rstrip()` */
  function TrimEnd(s: string): (r: string)
    ensures |r| <= |s| && r == s[..|r|]
    ensures r == [] || !IsSpace(r[|r| - 1])
    ensures forall i :: |r| <= i < |s| ==> IsSpace(s[i])
    decreases |s|
  {
    if |s| > 0 && IsSpace(s[|s| - 1]) then TrimEnd(s[..|s| - 1]) else s
  }

  /** `s.strip()`: the text between the leading and the trailing white space. */
  function Strip(s: string): (r: string)
    ensures r == [] || (!IsSpace(r[0]) && !IsSpace(r[|r| - 1]))
    ensures |r| <= |s|
    ensures SliceBetweenSpace(s, |s| - |TrimStart(s)|, r)
  {
    TrimsSlice(s, TrimStart(s), TrimEnd(TrimStart(s)));
    TrimEnd(TrimStart(s))
  }

  /** Every character is white space. */
  predicate AllSpace(s: string) {
    forall i :: 0 <= i < |s| ==> IsSpace(s[i])
  }

  /** `r` is the slice of `s` from `a` on, and everything on either side of it is white space. */
  predicate SliceBetweenSpace(s: string, a: int, r: string) {
    0 <= a && a + |r| <= |s| && r == s[a..a + |r|] && AllSpace(s[..a]) && AllSpace(s[a + |r|..])
  }

  /** Cutting a white-space prefix `s` down to `t`, then a white-space suffix `t` down to `r`, keeps a slice. */
  lemma TrimsSlice(s: string, t: string, r: string)
    requires |t| <= |s| && t == s[|s| - |t|..] && |r| <= |t| && r == t[..|r|]
    requires forall i :: 0 <= i < |s| - |t| ==> IsSpace(s[i])
    requires forall i :: |r| <= i < |t| ==> IsSpace(t[i])
    ensures SliceBetweenSpace(s, |s| - |t|, r)
  {
    var a := |s| - |t|;
    var tail := s[a + |r|..];
    assert r == s[a..a + |r|] && tail == t[|r|..];
    forall i | 0 <= i < a
      ensures IsSpace(s[..a][i])
    {
    }
    forall i | 0 <= i < |tail|
      ensures IsSpace(tail[i])
    {
      assert tail[i] == t[|r| + i];
    }
  }

  /** Text that neither starts nor ends with white space is left alone by `strip()`. */
  lemma StripKeepsTrimmed(s: string)
    requires s == [] || (!IsSpace(s[0]) && !IsSpace(s[|s| - 1]))
    ensures Strip(s) == s
  {
  }

  /** Stripping keeps the first character when it is not white space. */
  lemma StripKeepsHead(s: string)
    requires s != [] && !IsSpace(s[0])
    ensures Strip(s) != [] && Strip(s)[0] == s[0]
  {
    assert TrimStart(s) == s;
    TrimEndKeepsWord(s, [s[0]]);
  }

  /** Stripping twice is stripping once. */
  lemma StripIdempotent(s: string)
    ensures Strip(Strip(s)) == Strip(s)
  {
    StripKeepsTrimmed(Strip(s));
  }

  predicate StartsWith(s: string, prefix: string) {
    |prefix| <= |s| && s[..|prefix|] == prefix
  }

  /** `a + b` starts with `a`. */
  lemma StartsWithConcat(a: string, b: string)
    ensures StartsWith(a + b, a)
  {
    assert (a + b)[..|a|] == a;
  }

  /** A text keeps its prefixes when more text follows. */
  lemma StartsWithExtend(s: string, t: string, p: string)
    requires StartsWith(s, p)
    ensures StartsWith(s + t, p)
  {
    assert (s + t)[..|p|] == s[..|p|];
  }

  /** A text starting with `a + b` starts with `a`, and goes on with `b`. */
  lemma StartsWithSplit(s: string, a: string, b: string)
    requires StartsWith(s, a + b)
    ensures StartsWith(s, a) && StartsWith(s[|a|..], b)
  {
    assert s[..|a|] == (a + b)[..|a|];
    assert s[|a|..][..|b|] == (a + b)[|a|..];
  }

  /** Python's `part in s` for strings. */
  predicate Contains(s: string, part: string) {
    exists i :: 0 <= i <= |s| - |part| && OccursAt(s, part, i)
  }

  predicate OccursAt(s: string, part: string, i: int)
    requires 0 <= i <= |s| - |part|
  {
    s[i..i + |part|] == part
  }

  /** A text lacking one of the letters of `part` does not contain `part`. */
  lemma MissingLetter(s: string, part: string, k: nat)
    requires k < |part| && Free(s, part[k])
    ensures !Contains(s, part)
  {
    forall i | 0 <= i <= |s| - |part|
      ensures !OccursAt(s, part, i)
    {
      assert s[i..i + |part|][k] == s[i + k];
    }
  }

  /** Python's `s.split(sep)` for a one-character separator: every occurrence splits, empty parts are kept. */
  function Split(s: string, sep: char): (parts: seq<string>)
    ensures |parts| >= 1
    decreases |s|
  {
    if s == [] then [""]
    else if s[0] == sep then [""] + Split(s[1..], sep)
    else
      var rest := Split(s[1..], sep);
      [[s[0]] + rest[0]] + rest[1..]
  }

  predicate Free(w: string, sep: char) {
    forall i :: 0 <= i < |w| ==> w[i] != sep
  }

  lemma FreeConcat(a: string, b: string, c: char)
    requires Free(a, c) && Free(b, c)
    ensures Free(a + b, c)
  {
    assert forall i :: |a| <= i < |a + b| ==> (a + b)[i] == b[i - |a|];
  }

  /** A word without the separator followed by the separator splits off as the first part. */
  lemma {:induction false} SplitAfterWord(w: string, sep: char, rest: string)
    requires Free(w, sep)
    ensures Split(w + [sep] + rest, sep) == [w] + Split(rest, sep)
    decreases |w|
  {
    var s := w + [sep] + rest;
    if w == [] {
      assert s == [sep] + rest;
      assert s[1..] == rest;
    } else {
      assert s[0] == w[0];
      assert s[1..] == w[1..] + [sep] + rest;
      SplitAfterWord(w[1..], sep, rest);
      assert [w[0]] + w[1..] == w;
    }
  }

  /** Four separator-free words joined by the separator split back into those words. */
  lemma SplitFourWords(a: string, b: string, c: string, d: string, sep: char)
    requires Free(a, sep) && Free(b, sep) && Free(c, sep) && Free(d, sep)
    ensures Split(a + [sep] + (b + [sep] + (c + [sep] + d)), sep) == [a, b, c, d]
  {
    SplitWord(d, sep);
    SplitAfterWord(c, sep, d);
    SplitAfterWord(b, sep, c + [sep] + d);
    SplitAfterWord(a, sep, b + [sep] + (c + [sep] + d));
  }

  /** A text that starts with a separator-free word and the separator splits into that word and the parts of the rest. */
  lemma SplitPrefix(s: string, w: string, sep: char)
    requires Free(w, sep) && StartsWith(s, w + [sep])
    ensures Split(s, sep) == [w] + Split(s[|w| + 1..], sep)
  {
    assert s == w + [sep] + s[|w| + 1..];
    SplitAfterWord(w, sep, s[|w| + 1..]);
  }

  /** A word without the separator does not split at all. */
  lemma {:induction false} SplitWord(w: string, sep: char)
    requires Free(w, sep)
    ensures Split(w, sep) == [w]
    decreases |w|
  {
    if w != [] {
      SplitWord(w[1..], sep);
      assert [w[0]] + w[1..] == w;
    }
  }

  // ---------------------------------------------------------------------------
  // Integers: Python's int(text) and str(n)
  // ---------------------------------------------------------------------------

  /** The digit strings `int()` accepts in base 10: digits, with single underscores between digits. */
  predicate IsDigitGroup(s: string) {
    && |s| > 0 && IsDigit(s[0]) && IsDigit(s[|s| - 1])
    && (forall i :: 0 <= i < |s| ==> IsDigit(s[i]) || s[i] == '_')
    && (forall i :: 0 <= i < |s| - 1 ==> !(s[i] == '_' && s[i + 1] == '_'))
  }

  /** The value of a run of digits, underscores ignored. */
  function DigitsValue(s: string): nat
    requires forall i :: 0 <= i < |s| ==> IsDigit(s[i]) || s[i] == '_'
    decreases |s|
  {
    if s == [] then 0
    else if s[|s| - 1] == '_' then DigitsValue(s[..|s| - 1])
    else DigitsValue(s[..|s| - 1]) * 10 + DigitValue(s[|s| - 1])
  }

  function DigitValue(c: char): (d: nat)
    requires IsDigit(c)
    ensures d < 10
  {
    c as int - '0' as int
  }

  /**
   * Python's `int(text)`: surrounding white space ignored, an optional sign, then
   * a digit group. `None` stands for the `ValueError` it raises otherwise.
   */
  function ParseInt(text: string): (r: Option<int>)
    ensures r.Some? ==> Strip(text) != []
  {
    ParseSigned(Strip(text))
  }

  /** `int()` after the white space is gone: an optional sign, then a digit group. */
  function ParseSigned(t: string): (r: Option<int>)
    ensures r.Some? ==> t != []
  {
    if |t| > 0 && (t[0] == '+' || t[0] == '-') then
      if IsDigitGroup(t[1..]) then
        var v: int := DigitsValue(t[1..]);
        Some(if t[0] == '-' then -v else v)
      else None
    else if IsDigitGroup(t) then Some(DigitsValue(t))
    else None
  }

  function DigitChar(d: nat): (c: char)
    requires d < 10
    ensures IsDigit(c) && DigitValue(c) == d
  {
    ('0' as int + d) as char
  }

  function NatDecimal(n: nat): (r: string)
    ensures |r| > 0 && forall i :: 0 <= i < |r| ==> IsDigit(r[i])
    decreases n
  {
    if n < 10 then [DigitChar(n)] else NatDecimal(n / 10) + [DigitChar(n % 10)]
  }

  /** Python's `str(n)` for an int: a minus sign for negatives, no leading zeros. */
  function Decimal(n: int): (r: string)
    ensures |r| > 0 && (IsDigit(r[0]) || r[0] == '-') && IsDigit(r[|r| - 1])
    ensures forall i :: 0 < i < |r| ==> IsDigit(r[i])
  {
    if n < 0 then "-" + NatDecimal(-n) else NatDecimal(n)
  }

  lemma {:induction false} NatDecimalValue(n: nat)
    ensures IsDigitGroup(NatDecimal(n))
    ensures DigitsValue(NatDecimal(n)) == n
    decreases n
  {
    var s := NatDecimal(n);
    if n >= 10 {
      NatDecimalValue(n / 10);
      assert s[..|s| - 1] == NatDecimal(n / 10);
    }
  }

  /** A digit group reads as its value. */
  lemma ParseDigitGroup(s: string)
    requires IsDigitGroup(s)
    ensures ParseInt(s) == Some(DigitsValue(s))
  {
    StripKeepsTrimmed(s);
    assert s[0] != '+' && s[0] != '-';
  }

  /** A digit group behind a minus sign reads as the negated value. */
  lemma ParseNegatedDigitGroup(s: string)
    requires IsDigitGroup(s)
    ensures ParseInt("-" + s) == Some(0 - DigitsValue(s))
  {
    var m := "-" + s;
    StripKeepsTrimmed(m);
    assert ParseSigned(m) == Some(0 - DigitsValue(s)) by {
      assert m[0] == '-' && m[1..] == s;
    }
  }

  /** `int(str(n)) == n`: the decimal form of an id reads back as the same id. */
  lemma DecimalRoundTrip(n: int)
    ensures ParseInt(Decimal(n)) == Some(n)
  {
    var m: nat := if n < 0 then -n else n;
    var d := NatDecimal(m);
    NatDecimalValue(m);
    if n < 0 {
      assert Decimal(n) == "-" + d;
      ParseNegatedDigitGroup(d);
    } else {
      assert Decimal(n) == d;
      ParseDigitGroup(d);
    }
  }

  /** The decimal form holds only digits and a leading minus sign. */
  lemma DecimalFree(n: int, c: char)
    requires !IsDigit(c) && c != '-'
    ensures Free(Decimal(n), c)
  {
  }

  /** Distinct ids have distinct decimal forms. */
  lemma DecimalInjective(a: int, b: int)
    ensures Decimal(a) == Decimal(b) ==> a == b
  {
    DecimalRoundTrip(a);
    DecimalRoundTrip(b);
  }

  // ---------------------------------------------------------------------------
  // aiogram's Command filter
  // ---------------------------------------------------------------------------

  /** The longest prefix of `s` without white space. */
  function TakeWord(s: string): (w: string)
    ensures |w| <= |s| && w == s[..|w|]
    ensures forall i :: 0 <= i < |w| ==> !IsSpace(w[i])
    ensures |w| == |s| || IsSpace(s[|w|])
    decreases |s|
  {
    if s == [] || IsSpace(s[0]) then [] else [s[0]] + TakeWord(s[1..])
  }

  /** A message read as a command: `prefix command@mention args`. */
  datatype CommandText = CommandText(prefix: char, command: string, mention: string, args: Option<string>)

  /** `s.partition(c)` without the separator: the text before the first `c` and the text after it. */
  function Partition(s: string, c: char): (r: (string, string))
    ensures Free(r.0, c)
    decreases |s|
  {
    if s == [] then ("", "")
    else if s[0] == c then ("", s[1..])
    else var rest := Partition(s[1..], c); ([s[0]] + rest.0, rest.1)
  }

  /**
   * How aiogram splits a message into a command: `text.split(maxsplit=1)`, the
   * first character of the first word is the prefix, the rest of that word is
   * partitioned at `@` into command and mention, and what follows the white
   * space (if anything) is the argument string. `None` when the text is blank.
   */
  function ParseCommand(text: string): (r: Option<CommandText>)
    ensures r.Some? ==> r.value.args != Some("")
  {
    var t := TrimStart(text);
    if t == [] then None
    else
      var word := TakeWord(t);
      var after := TrimStart(t[|word|..]);
      var (command, mention) := Partition(word[1..], '@');
      Some(CommandText(word[0], command, mention, if after == [] then None else Some(after)))
  }

  /**
   * `Command(name)` matches: prefix `/`, the command itself, no bot mention.
   * (A mention is accepted by aiogram only when it names this bot; mentions
   * are not modelled and never match here.)
   */
  predicate IsCommand(text: string, name: string) {
    CommandName(text) == Some(name)
  }

  /** The command a `Command` filter sees in the text, if any: prefix `/` and no mention. */
  function CommandName(text: string): Option<string> {
    var c := ParseCommand(text);
    if c.Some? && c.value.prefix == '/' && c.value.mention == "" then Some(c.value.command) else None
  }

  function CommandArgs(text: string): Option<string> {
    var c := ParseCommand(text);
    if c.Some? then c.value.args else None
  }

  /** A `/close` command, stripped, starts with `/close` (the relays test exactly this). */
  lemma CommandStartsStripped(text: string, name: string)
    requires IsCommand(text, name)
    ensures StartsWith(Strip(text), "/" + name)
  {
    var t := TrimStart(text);
    CommandStartsTrimmed(text, name);
    TrimEndKeepsWord(t, "/" + name);
  }

  /** The trimmed text of a command starts with `/name`, which holds no white space. */
  lemma CommandStartsTrimmed(text: string, name: string)
    requires IsCommand(text, name)
    ensures var p := "/" + name;
      StartsWith(TrimStart(text), p) && !IsSpace(p[|p| - 1])
  {
    var t := TrimStart(text);
    var word := TakeWord(t);
    CommandWord(text);
    var cmd := Partition(word[1..], '@').0;
    PartitionPrefix(word[1..], '@');
    WordStarts(t, word, cmd);
  }

  /** A word `/cmd...` at the head of `t` puts `/cmd` at the head of `t`. */
  lemma WordStarts(t: string, word: string, cmd: string)
    requires |word| >= 1 && StartsWith(t, word) && word[0] == '/'
    requires forall i :: 0 <= i < |word| ==> !IsSpace(word[i])
    requires StartsWith(word[1..], cmd)
    ensures var p := "/" + cmd;
      StartsWith(t, p) && !IsSpace(p[|p| - 1])
  {
    var p := "/" + cmd;
    assert p == word[..|cmd| + 1] by {
      assert forall i :: 1 <= i <= |cmd| ==> word[i] == cmd[i - 1];
    }
    assert p[|p| - 1] == word[|cmd|];
  }

  /** `rstrip()` keeps a prefix that ends in a character other than white space. */
  lemma TrimEndKeepsWord(t: string, p: string)
    requires StartsWith(t, p) && p != [] && !IsSpace(p[|p| - 1])
    ensures StartsWith(TrimEnd(t), p)
  {
    var r := TrimEnd(t);
    assert t[|p| - 1] == p[|p| - 1];
    assert r[..|p|] == t[..|p|];
  }

  /** The parts of a parsed command: the first word of the trimmed text gives its prefix and its command. */
  lemma CommandWord(text: string)
    requires ParseCommand(text).Some?
    ensures var t := TrimStart(text);
      var word := TakeWord(t);
      && |word| >= 1
      && ParseCommand(text).value.prefix == word[0]
      && ParseCommand(text).value.command == Partition(word[1..], '@').0
  {
  }

  /** What `partition` keeps before the separator is a prefix of the text. */
  lemma {:induction false} PartitionPrefix(s: string, c: char)
    ensures |Partition(s, c).0| <= |s| && Partition(s, c).0 == s[..|Partition(s, c).0|]
    decreases |s|
  {
    if s != [] && s[0] != c {
      PartitionPrefix(s[1..], c);
    }
  }

  /** A text whose first character is neither white space nor `/` is no command. */
  lemma NotACommand(text: string)
    requires text != [] && !IsSpace(text[0]) && text[0] != '/'
    ensures CommandName(text) == None
  {
    assert TrimStart(text) == text;
  }

  /** A bare `/name` is that command, without arguments. */
  lemma BareCommand(name: string)
    requires Free(name, '@') && forall i :: 0 <= i < |name| ==> !IsSpace(name[i])
    ensures IsCommand("/" + name, name) && CommandArgs("/" + name) == None
  {
    var t := "/" + name;
    assert TrimStart(t) == t;
    assert TakeWord(t) == t by { TakeWordAll(t); }
    assert t[1..] == name;
    PartitionFree(name, '@');
  }

  /** `/name args` is that command with the argument text. */
  lemma CommandWithArgs(name: string, args: string)
    requires Free(name, '@') && forall i :: 0 <= i < |name| ==> !IsSpace(name[i])
    requires args != [] && !IsSpace(args[0])
    ensures IsCommand("/" + name + " " + args, name)
    ensures CommandArgs("/" + name + " " + args) == Some(args)
  {
    ParseWithArgs(name, args);
  }

  lemma ParseWithArgs(name: string, args: string)
    requires Free(name, '@') && forall i :: 0 <= i < |name| ==> !IsSpace(name[i])
    requires args != [] && !IsSpace(args[0])
    ensures ParseCommand("/" + name + " " + args) == Some(CommandText('/', name, "", Some(args)))
  {
    var w, rest := "/" + name, " " + args;
    var t := w + rest;
    assert "/" + name + " " + args == t;
    assert TrimStart(t) == t by {
      assert t[0] == '/';
    }
    assert TakeWord(t) == w by {
      TakeWordStops(w, rest);
    }
    assert TrimStart(t[|w|..]) == args by {
      assert t[|w|..] == rest && rest[1..] == args;
    }
    assert Partition(w[1..], '@') == (name, "") by {
      assert w[1..] == name;
      PartitionFree(name, '@');
    }
  }

  lemma {:induction false} TakeWordAll(s: string)
    requires forall i :: 0 <= i < |s| ==> !IsSpace(s[i])
    ensures TakeWord(s) == s
    decreases |s|
  {
    if s != [] {
      TakeWordAll(s[1..]);
    }
  }

  lemma {:induction false} TakeWordStops(w: string, rest: string)
    requires forall i :: 0 <= i < |w| ==> !IsSpace(w[i])
    requires rest != [] && IsSpace(rest[0])
    ensures TakeWord(w + rest) == w
    decreases |w|
  {
    if w == [] {
      assert (w + rest) == rest;
    } else {
      assert (w + rest)[1..] == w[1..] + rest;
      TakeWordStops(w[1..], rest);
      assert [w[0]] + w[1..] == w;
    }
  }

  lemma {:induction false} PartitionFree(s: string, c: char)
    requires Free(s, c)
    ensures Partition(s, c) == (s, "")
    decreases |s|
  {
    if s != [] {
      PartitionFree(s[1..], c);
      assert [s[0]] + s[1..] == s;
    }
  }
}
