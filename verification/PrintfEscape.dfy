/** Scripts sent as printf formats, and how a POSIX shell and printf read them back. Characters stand
    for themselves: bytes above ASCII pass through every step unchanged. */
module PrintfEscape {
  import opened Outcomes

  // ---------- the encoder ----------

  /** Left as it is: anything beyond ASCII, and every printable ASCII character but seven. */
  predicate Plain(c: char) {
    c as int >= 128 ||
    (' ' <= c <= '~' && c != '!' && c != '"' && c != '$' && c != '%' && c != '\'' && c != '\\' && c != '`')
  }

  predicate Mark(c: char) {
    match c
    case ' ' | '-' | '_' | '.' | ',' | ':' | ';' | '/' | '=' | '+' | '(' | ')' | '{' | '}' | '[' | ']' => true
    case '<' | '>' | '|' | '&' | '*' | '?' | '#' | '@' | '^' | '~' => true
    case _ => false
  }

  /** Those are the letters, the digits and the marks the encoder lists. */
  lemma {:induction false} PlainIsTheList(c: char)
    ensures Plain(c) <==>
              c as int >= 128 || '0' <= c <= '9' || 'a' <= c <= 'z' || 'A' <= c <= 'Z' || Mark(c)
  {
  }

  function Digit(n: nat): char
    requires n < 8
  {
    '0' + n as char
  }

  /** A backslash and three octal digits. */
  function Octal(c: char): string
    requires c as int < 128
  {
    var n := c as int;
    ['\\', Digit(n / 64), Digit(n / 8 % 8), Digit(n % 8)]
  }

  function Code(c: char): string {
    if Plain(c) then [c] else Octal(c)
  }

  function Escaped(s: string): string {
    if s == "" then "" else Code(s[0]) + Escaped(s[1..])
  }

  lemma {:induction false} Joined(a: string, b: string, c: string)
    ensures a + (b + c) == a + b + c
  {
  }

  lemma {:induction false} EscapedGrows(s: string, c: char)
    ensures Escaped(s + [c]) == Escaped(s) + Code(c)
  {
    if s == "" {
      assert "" + [c] == [c] && [c][1..] == "";
    } else {
      EscapedGrows(s[1..], c);
      var t, head, middle, last := s + [c], Code(s[0]), Escaped(s[1..]), Code(c);
      assert t != "" && t[0] == s[0] && t[1..] == s[1..] + [c];
      assert head + (middle + last) == head + middle + last by {
        Joined(head, middle, last);
      }
    }
  }

  method Escape(script: string) returns (out: string)
    ensures out == Escaped(script)
  {
    out := "";
    for i := 0 to |script|
      invariant out == Escaped(script[..i])
    {
      var c := script[i];
      EscapedGrows(script[..i], c);
      assert script[..i + 1] == script[..i] + [c];
      out := out + if Plain(c) then [c] else Octal(c);
    }
    assert script[..|script|] == script;
  }

  const PRINTF_HEAD := "printf '"
  const PRINTF_TAIL := " | sh"

  function EncodeWrapper(script: string): string {
    PRINTF_HEAD + Escaped(script) + ("'" + PRINTF_TAIL)
  }

  // ---------- printf ----------

  predicate OctalDigit(c: char) {
    '0' <= c <= '7'
  }

  function OctalValue(ds: string): nat
    requires forall i | 0 <= i < |ds| :: OctalDigit(ds[i])
  {
    if ds == "" then 0
    else
      assert OctalDigit(ds[|ds| - 1]);
      8 * OctalValue(ds[..|ds| - 1]) + (ds[|ds| - 1] - '0') as int
  }

  /** How many of the first three characters belong to an octal escape. */
  function OctalRun(s: string): (n: nat)
    ensures n <= 3 && n <= |s| && forall i | 0 <= i < n :: OctalDigit(s[i])
  {
    if |s| == 0 || !OctalDigit(s[0]) then 0
    else if |s| == 1 || !OctalDigit(s[1]) then 1
    else if |s| == 2 || !OctalDigit(s[2]) then 2
    else 3
  }

  function Letter(c: char): Option<char> {
    match c
    case '\\' => Some('\\')
    case 'a' => Some(7 as char)
    case 'b' => Some(8 as char)
    case 'f' => Some(12 as char)
    case 'n' => Some('\n')
    case 'r' => Some('\r')
    case 't' => Some('\t')
    case 'v' => Some(11 as char)
    case _ => None
  }

  function Prepend(c: char, rest: Option<string>): Option<string> {
    if rest.Some? then Some([c] + rest.value) else None
  }

  /** What a format with no arguments stands for: octal escapes of up to three digits, the letter
      escapes and `%%`. None for anything that is not defined without an argument. */
  function Formatted(fmt: string): Option<string>
    decreases |fmt|
  {
    if fmt == "" then Some("")
    else if fmt[0] == '%' then
      if |fmt| > 1 && fmt[1] == '%' then Prepend('%', Formatted(fmt[2..])) else None
    else if fmt[0] == '\\' then
      var n := OctalRun(fmt[1..]);
      if n > 0 then Prepend((OctalValue(fmt[1..][..n]) % 256) as char, Formatted(fmt[n + 1..]))
      else if |fmt| > 1 && Letter(fmt[1]).Some? then Prepend(Letter(fmt[1]).value, Formatted(fmt[2..]))
      else None
    else Prepend(fmt[0], Formatted(fmt[1..]))
  }

  /** An argument a command takes for options: a dash alone is none. */
  predicate OptionLike(arg: string) {
    |arg| > 1 && arg[0] == '-'
  }

  /** What printf prints for its one argument; printf has no options, so one that looks like options
      is refused. */
  function Printf(arg: string): Option<string> {
    if OptionLike(arg) then None else Formatted(arg)
  }

  lemma {:induction false} OctalDigits(c: char)
    requires c as int < 128
    ensures var ds := Octal(c)[1..];
            |ds| == 3 && (forall i | 0 <= i < 3 :: OctalDigit(ds[i])) && OctalValue(ds) == c as int
  {
    var (n, ds) := (c as int, Octal(c)[1..]);
    assert ds[..2] == [ds[0], ds[1]] && ds[..2][..1] == [ds[0]] && ds[..2][..1][..0] == "";
    assert OctalValue([ds[0]]) == n / 64;
    assert OctalValue([ds[0], ds[1]]) == 8 * (n / 64) + n / 8 % 8;
    DigitsAddUp(n);
  }

  lemma {:induction false} DigitsAddUp(n: nat)
    ensures 8 * (8 * (n / 64) + n / 8 % 8) + n % 8 == n
  {
    assert n / 8 / 8 == n / 64;
    assert 8 * (n / 8 / 8) + n / 8 % 8 == n / 8;
  }

  lemma {:induction false} OctalReads(c: char, rest: string)
    requires c as int < 128
    ensures Formatted(Octal(c) + rest) == Prepend(c, Formatted(rest))
  {
    var s := Octal(c) + rest;
    OctalDigits(c);
    assert s[1..][..3] == Octal(c)[1..];
    assert s[4..] == rest;
    assert OctalRun(s[1..]) == 3 by {
      forall i | 0 <= i < 3 ensures OctalDigit(s[1..][i]) {
        assert s[1..][i] == Octal(c)[1..][i];
      }
    }
  }

  /** As a format, the escaped text stands for the script, whatever the script holds. */
  lemma {:induction false} RoundTrip(s: string)
    ensures Formatted(Escaped(s)) == Some(s)
  {
    if s == "" {
    } else {
      RoundTrip(s[1..]);
      assert s == [s[0]] + s[1..];
      if Plain(s[0]) {
        assert Escaped(s)[1..] == Escaped(s[1..]);
      } else {
        OctalReads(s[0], Escaped(s[1..]));
      }
    }
  }

  /** As an argument, it prints the script exactly when the script does not start as options do: the
      encoder leaves a dash as it is. */
  lemma {:induction false} WhenPrintfReadsBack(s: string)
    ensures Printf(Escaped(s)) == if OptionLike(s) then None else Some(s)
  {
    RoundTrip(s);
    AtMostQuadruples(s);
    if s != "" {
      assert Escaped(s)[0] == '-' <==> s[0] == '-';
      if |s| == 1 && s[0] == '-' {
        assert s[1..] == "" && Escaped(s) == "-";
      }
    }
  }

  lemma {:induction false} AtMostQuadruples(s: string)
    ensures |s| <= |Escaped(s)| <= 4 * |s|
  {
    if s == "" {
    } else {
      AtMostQuadruples(s[1..]);
    }
  }

  // ---------- the shell's quotes ----------

  /** Text a shell copies unchanged from between double quotes (section 2.2.3 of the Shell Command
      Language): no `"`, `$` or backquote, and no backslash that would escape what follows. */
  predicate Inert(s: string) {
    s == "" || (
      && s[0] != '"' && s[0] != '$' && s[0] != '`'
      && (s[0] == '\\' ==> |s| > 1 && s[1] !in "$`\"\\\n")
      && Inert(s[1..]))
  }

  /** Reads double-quoted text: what it stands for and what follows the closing quote, or None when
      an expansion starts or no quote closes it. */
  function ReadDouble(s: string): Option<(string, string)>
    decreases |s|
  {
    if s == "" || s[0] == '$' || s[0] == '`' then None
    else if s[0] == '"' then Some(("", s[1..]))
    else if s[0] == '\\' && |s| > 1 && s[1] == '\n' then ReadDouble(s[2..])
    else if s[0] == '\\' && |s| > 1 && s[1] in "$`\"\\" then Grown(s[1], ReadDouble(s[2..]))
    else Grown(s[0], ReadDouble(s[1..]))
  }

  /** Reads single-quoted text (section 2.2.2): everything up to the next single quote. */
  function ReadSingle(s: string): Option<(string, string)> {
    if s == "" then None
    else if s[0] == '\'' then Some(("", s[1..]))
    else Grown(s[0], ReadSingle(s[1..]))
  }

  function Grown(c: char, read: Option<(string, string)>): Option<(string, string)> {
    if read.Some? then Some(([c] + read.value.0, read.value.1)) else None
  }

  lemma {:induction false} InertReads(s: string, rest: string)
    requires Inert(s)
    ensures ReadDouble(s + "\"" + rest) == Some((s, rest))
  {
    var t := s + "\"" + rest;
    if s == "" {
      assert t == "\"" + rest;
    } else {
      InertReads(s[1..], rest);
      assert t[1..] == s[1..] + "\"" + rest;
      assert [s[0]] + s[1..] == s;
    }
  }

  lemma {:induction false} UnquotedReads(s: string, rest: string)
    requires '\'' !in s
    ensures ReadSingle(s + "'" + rest) == Some((s, rest))
  {
    var t := s + "'" + rest;
    if s == "" {
      assert t == "'" + rest;
    } else {
      UnquotedReads(s[1..], rest);
      assert t[1..] == s[1..] + "'" + rest;
      assert [s[0]] + s[1..] == s;
    }
  }

  lemma {:induction false} InertJoins(a: string, b: string)
    requires Inert(a) && Inert(b) && (a == "" || a[|a| - 1] != '\\')
    ensures Inert(a + b)
  {
    if a == "" {
      assert a + b == b;
    } else {
      assert (a + b)[1..] == a[1..] + b;
      InertJoins(a[1..], b);
    }
  }

  /** The marks a shell, an interactive shell's history or a printf directive would act on never occur,
      and a backslash only ever starts three octal digits. */
  lemma {:induction false} EscapedIsTame(s: string)
    ensures forall c | c in Escaped(s) :: c == '\\' || Plain(c)
    ensures Escaped(s) != "" ==> Escaped(s)[|Escaped(s)| - 1] != '\\'
    ensures Inert(Escaped(s))
  {
    if s == "" {
    } else {
      EscapedIsTame(s[1..]);
      if Plain(s[0]) {
        assert Escaped(s)[1..] == Escaped(s[1..]);
      } else {
        var o := Octal(s[0]);
        assert Inert(o) by {
          assert o[1..][1..][1..][1..] == "";
          assert Inert(o[1..][1..][1..]) && Inert(o[1..][1..]) && Inert(o[1..]);
        }
        InertJoins(o, Escaped(s[1..]));
      }
    }
  }

  /** The escaped text reads back as itself from between either kind of quote. */
  lemma {:induction false} SurvivesBothQuotes(s: string, rest: string)
    ensures ReadDouble(Escaped(s) + "\"" + rest) == Some((Escaped(s), rest))
    ensures ReadSingle(Escaped(s) + "'" + rest) == Some((Escaped(s), rest))
  {
    EscapedIsTame(s);
    InertReads(Escaped(s), rest);
    UnquotedReads(Escaped(s), rest);
  }

  /** Quoting an argument for a shell closes the quote around each single quote in it. */
  function ShellQuoted(s: string): string {
    "'" + Requoted(s) + "'"
  }

  function Requoted(s: string): string {
    if s == "" then "" else (if s[0] == '\'' then "'\\''" else [s[0]]) + Requoted(s[1..])
  }

  /** What a shell makes of a word of quoted pieces and escaped characters that ends with the text. */
  function Word(s: string): Option<string>
    decreases |s|
  {
    if s == "" then Some("")
    else if s[0] == '\'' then
      var read := ReadSingle(s[1..]);
      ReadSingleShortens(s[1..]);
      if read.None? then None
      else
        var rest := Word(read.value.1);
        if rest.Some? then Some(read.value.0 + rest.value) else None
    else if s[0] == '\\' && |s| > 1 then Prepend(s[1], Word(s[2..]))
    else None
  }

  lemma {:induction false} ReadSingleShortens(s: string)
    ensures ReadSingle(s).Some? ==> |ReadSingle(s).value.1| < |s|
  {
    if s == "" {
    } else if s[0] == '\'' {
    } else {
      ReadSingleShortens(s[1..]);
    }
  }

  /** A quoted argument reads back as itself, whatever quotes it holds. */
  lemma {:induction false} QuotedReadsBack(s: string)
    ensures Word(ShellQuoted(s)) == Some(s)
  {
    assert ShellQuoted(s) == "'" + (Requoted(s) + "'");
    RequotedReads(s);
  }

  /** Reading `text` from inside a quote, and what follows that, gives `s`. */
  predicate ReadsOn(text: string, s: string) {
    var read := ReadSingle(text);
    read.Some? && Word(read.value.1).Some? && read.value.0 + Word(read.value.1).value == s
  }

  lemma {:induction false} RequotedReads(s: string)
    ensures ReadsOn(Requoted(s) + "'", s) && Word("'" + (Requoted(s) + "'")) == Some(s)
  {
    if s == "" {
      assert Requoted(s) + "'" == "'" && "'"[1..] == "";
    } else {
      RequotedReads(s[1..]);
      assert [s[0]] + s[1..] == s;
      if s[0] == '\'' {
        QuoteReads(Requoted(s[1..]) + "'", s[1..]);
        assert Requoted(s) + "'" == "'" + ("\\'" + ("'" + (Requoted(s[1..]) + "'")));
      } else {
        CharReads(s[0], Requoted(s[1..]) + "'", s[1..]);
        assert Requoted(s) + "'" == [s[0]] + (Requoted(s[1..]) + "'");
      }
    }
    OpeningReads(Requoted(s) + "'", s);
  }

  lemma {:induction false} OpeningReads(text: string, s: string)
    requires ReadsOn(text, s)
    ensures Word("'" + text) == Some(s)
  {
    assert ("'" + text)[1..] == text;
    ReadSingleShortens(text);
  }

  lemma {:induction false} CharReads(c: char, text: string, s: string)
    requires c != '\'' && ReadsOn(text, s)
    ensures ReadsOn([c] + text, [c] + s)
  {
    assert ([c] + text)[1..] == text;
    var read := ReadSingle(text);
    assert [c] + read.value.0 + Word(read.value.1).value == [c] + (read.value.0 + Word(read.value.1).value);
  }

  lemma {:induction false} QuoteReads(text: string, s: string)
    requires Word("'" + text) == Some(s)
    ensures ReadsOn("'" + ("\\'" + ("'" + text)), ['\''] + s)
  {
    var behind := "\\'" + ("'" + text);
    assert ("'" + behind)[1..] == behind && behind[2..] == "'" + text;
    assert behind[0] == '\\' && behind[1] == '\'';
    assert Word(behind) == Some(['\''] + s);
    assert "" + (['\''] + s) == ['\''] + s;
  }

  lemma {:induction false} NothingToRequote(s: string)
    requires '\'' !in s
    ensures Requoted(s) == s
  {
    if s == "" {
    } else {
      NothingToRequote(s[1..]);
      assert [s[0]] + s[1..] == s;
    }
  }

  // ---------- commands inside commands ----------

  /** The script a shell ends up running for a command of the form `printf '...' | sh`. */
  function Unwrapped(cmd: string): Option<string> {
    if |cmd| < |PRINTF_HEAD| || cmd[..|PRINTF_HEAD|] != PRINTF_HEAD then None
    else
      var read := ReadSingle(cmd[|PRINTF_HEAD|..]);
      if read.None? || read.value.1 != PRINTF_TAIL then None else Printf(read.value.0)
  }

  lemma {:induction false} UnwrapsToScript(script: string)
    ensures Unwrapped(EncodeWrapper(script)) == if OptionLike(script) then None else Some(script)
  {
    var cmd := EncodeWrapper(script);
    assert cmd == PRINTF_HEAD + (Escaped(script) + "'" + PRINTF_TAIL);
    assert cmd[|PRINTF_HEAD|..] == Escaped(script) + "'" + PRINTF_TAIL;
    SurvivesBothQuotes(script, PRINTF_TAIL);
    WhenPrintfReadsBack(script);
  }

  lemma {:induction false} WrapperText(script: string)
    ensures EncodeWrapper(script) == "printf '" + Escaped(script) + "' | sh"
  {
  }

  /** A whole wrapped command can stand between double quotes as it is. */
  lemma {:induction false} WrapperIsInert(script: string)
    ensures Inert(EncodeWrapper(script))
  {
    EscapedIsTame(script);
    InertLiteral(PRINTF_HEAD);
    InertLiteral("'" + PRINTF_TAIL);
    InertAround(PRINTF_HEAD, Escaped(script), "'" + PRINTF_TAIL);
  }

  lemma {:induction false} InertAround(head: string, middle: string, tail: string)
    requires Inert(head) && Inert(middle) && Inert(tail) && head != "" && head[|head| - 1] != '\\'
    requires middle != "" ==> middle[|middle| - 1] != '\\'
    ensures Inert(head + middle + tail)
  {
    InertJoins(head, middle);
    assert middle == "" ==> head + middle == head;
    InertJoins(head + middle, tail);
  }

  lemma {:induction false} InertLiteral(s: string)
    requires forall c | c in s :: c != '"' && c != '$' && c != '`' && c != '\\'
    ensures Inert(s)
  {
    if s == "" {
    } else {
      assert s[0] in s && forall c | c in s[1..] :: c in s;
      InertLiteral(s[1..]);
    }
  }

  /** The script that binds a command to `V` and goes on with `rest`. */
  function Binding(inner: string, rest: string): string {
    "V=\"" + inner + "\"" + rest
  }

  /** What such a script binds `V` to. */
  function Bound(script: string): Option<string> {
    if |script| < 3 || script[..3] != "V=\"" then None
    else
      var read := ReadDouble(script[3..]);
      if read.Some? then Some(read.value.0) else None
  }

  /** A payload inside a payload inside a payload: each level binds the one below. */
  function Nested(script: string, rests: seq<string>): string {
    if rests == [] then EncodeWrapper(script)
    else EncodeWrapper(Binding(Nested(script, rests[1..]), rests[0]))
  }

  function Peeled(cmd: string, levels: nat): Option<string>
    decreases levels
  {
    var script := Unwrapped(cmd);
    if levels == 0 || script.None? then script
    else
      var inner := Bound(script.value);
      if inner.None? then None else Peeled(inner.value, levels - 1)
  }

  /** However deep the nesting, level by level the original script comes out, if a level without nesting
      would give it; the outer levels always can. */
  lemma {:induction false} NestedPeels(script: string, rests: seq<string>)
    ensures Peeled(Nested(script, rests), |rests|) == if OptionLike(script) then None else Some(script)
    ensures Inert(Nested(script, rests))
  {
    if rests == [] {
      UnwrapsToScript(script);
      WrapperIsInert(script);
    } else {
      var inner := Nested(script, rests[1..]);
      NestedPeels(script, rests[1..]);
      var outer := Binding(inner, rests[0]);
      UnwrapsToScript(outer);
      WrapperIsInert(outer);
      BindingBinds(inner, rests[0]);
    }
  }

  lemma {:induction false} BindingBinds(inner: string, rest: string)
    requires Inert(inner)
    ensures Bound(Binding(inner, rest)) == Some(inner)
  {
    assert Binding(inner, rest)[3..] == inner + "\"" + rest;
    InertReads(inner, rest);
  }

  // ---------- the option and the container payload ----------

  /** The multiplexer's option store: `$` comes back as `\$` and a newline as `_`. */
  function Shown(s: string): string {
    if s == "" then ""
    else (if s[0] == '$' then "\\$" else if s[0] == '\n' then "_" else [s[0]]) + Shown(s[1..])
  }

  lemma {:induction false} ShownKeeps(s: string)
    requires '$' !in s && '\n' !in s
    ensures Shown(s) == s
  {
    if s == "" {
    } else {
      ShownKeeps(s[1..]);
      assert [s[0]] + s[1..] == s;
    }
  }

  /** A script kept in an option survives quoting, storing and showing, and is printable ASCII there. */
  lemma {:induction false} OptionRoundTrip(script: string)
    ensures ShellQuoted(Escaped(script)) == "'" + Escaped(script) + "'"
    ensures Printf(Shown(Escaped(script))) == if OptionLike(script) then None else Some(script)
    ensures (forall c | c in script :: c as int < 128) ==> forall c | c in Escaped(script) :: ' ' <= c <= '~'
  {
    EscapedIsTame(script);
    NothingToRequote(Escaped(script));
    ShownKeeps(Escaped(script));
    WhenPrintfReadsBack(script);
    if forall c | c in script :: c as int < 128 {
      AsciiStaysAscii(script);
    }
  }

  lemma {:induction false} AsciiStaysAscii(s: string)
    requires forall c | c in s :: c as int < 128
    ensures forall c | c in Escaped(s) :: ' ' <= c <= '~'
  {
    if s == "" {
    } else {
      assert s[0] in s && forall c | c in s[1..] :: c in s;
      AsciiStaysAscii(s[1..]);
    }
  }

  const EVAL_HEAD := "eval \"$(printf \""
  const EVAL_TAIL := ")\""

  function ContainerPayload(wrapper: string): string {
    EVAL_HEAD + Escaped(wrapper) + "\"" + EVAL_TAIL
  }

  /** The container command's argument is single-quoted as it stands and evaluates the wrapper. */
  lemma {:induction false} ContainerPayloadReads(wrapper: string, rest: string)
    ensures ContainerPayload(wrapper) == "eval \"$(printf \"" + Escaped(wrapper) + "\")\""
    ensures ReadSingle(ContainerPayload(wrapper) + "'" + rest) == Some((ContainerPayload(wrapper), rest))
    ensures ReadDouble(ContainerPayload(wrapper)[|EVAL_HEAD|..]) == Some((Escaped(wrapper), EVAL_TAIL))
    ensures Printf(Escaped(wrapper)) == if OptionLike(wrapper) then None else Some(wrapper)
  {
    EscapedIsTame(wrapper);
    UnquotedReads(ContainerPayload(wrapper), rest);
    assert ContainerPayload(wrapper)[|EVAL_HEAD|..] == Escaped(wrapper) + "\"" + EVAL_TAIL;
    InertReads(Escaped(wrapper), EVAL_TAIL);
    WhenPrintfReadsBack(wrapper);
  }
}
