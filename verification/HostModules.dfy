/** Pointing a plugin bundle's imports at the host's own modules: the specifiers the host provides are
    replaced in the source text, everything else must be relative, the rest of the text stays. */
module HostModules {
  import opened Outcomes

  datatype Form = Static | Dynamic | Meta

  /** What the lexer reports: the range of the specifier, which for a dynamic import is its argument. */
  datatype Import = Import(s: nat, e: nat, form: Form)

  /** What looking a name up on a JavaScript object finds beyond its own entries: a value every object
      inherits, as it reads when joined to a string and when written as JSON. */
  datatype Inherited = Inherited(printed: string, json: string)

  datatype Host = Host(urls: map<string, string>, inherited: map<string, Inherited>)

  datatype Error = NonLiteral | Disallowed(spec: string)

  datatype Edit = Edit(s: nat, e: nat, text: string)

  /** A URL that JSON writes as it is, between quotes. */
  predicate PlainUrl(u: string) {
    u != "" && forall i | 0 <= i < |u| :: u[i] >= ' ' && u[i] != '"' && u[i] != '\\'
  }

  predicate Usable(host: Host) {
    forall spec | spec in host.urls :: PlainUrl(host.urls[spec])
  }

  /** Ranges inside the source, in order and apart. */
  ghost predicate Ordered(source: string, imports: seq<Import>) {
    && (forall i | 0 <= i < |imports| :: imports[i].s <= imports[i].e <= |source|)
    && (forall i, j | 0 <= i < j < |imports| :: imports[i].e <= imports[j].s)
  }

  /** What specifier the text gives an import, escapes left as they are: of a dynamic import's argument
      only the first and the last character are looked at, which have to be the same quote. */
  function SpecifierOf(source: string, imp: Import): Option<string>
    requires imp.s <= imp.e <= |source|
  {
    var raw := source[imp.s..imp.e];
    if imp.form.Static? then Some(raw)
    else if |raw| >= 2 && (raw[0] == '"' || raw[0] == '\'') && raw[|raw| - 1] == raw[0] then Some(raw[1..|raw| - 1])
    else None
  }

  function JsonText(url: string): string {
    "\"" + url + "\""
  }

  /** What replaces a specifier, if the lookup finds anything. */
  function Replacement(host: Host, spec: string, form: Form): Option<string> {
    if spec in host.urls then Some(if form.Dynamic? then JsonText(host.urls[spec]) else host.urls[spec])
    else if spec in host.inherited then
      Some(if form.Dynamic? then host.inherited[spec].json else host.inherited[spec].printed)
    else None
  }

  predicate Relative(spec: string) {
    (|spec| >= 2 && spec[..2] == "./") || (|spec| >= 3 && spec[..3] == "../")
  }

  /** What the bundle is refused for, import by import. */
  function Refusal(host: Host, source: string, imp: Import): Option<Error>
    requires imp.s <= imp.e <= |source|
  {
    if imp.form.Meta? then None
    else
      match SpecifierOf(source, imp)
      case None => Some(NonLiteral)
      case Some(spec) =>
        if Replacement(host, spec, imp.form).Some? || Relative(spec) then None else Some(Disallowed(spec))
  }

  function EditOf(host: Host, source: string, imp: Import): Option<Edit>
    requires imp.s <= imp.e <= |source|
  {
    if imp.form.Meta? || SpecifierOf(source, imp).None? then None
    else
      match Replacement(host, SpecifierOf(source, imp).value, imp.form)
      case None => None
      case Some(text) => Some(Edit(imp.s, imp.e, text))
  }

  function Edits(host: Host, source: string, imports: seq<Import>): seq<Edit>
    requires forall i | 0 <= i < |imports| :: imports[i].s <= imports[i].e <= |source|
  {
    if imports == [] then []
    else
      var rest := Edits(host, source, imports[1..]);
      match EditOf(host, source, imports[0])
      case None => rest
      case Some(edit) => [edit] + rest
  }

  // ---------- the edited text ----------

  ghost predicate Apart(edits: seq<Edit>, from: nat, length: nat) {
    && from <= length
    && (forall i | 0 <= i < |edits| :: from <= edits[i].s <= edits[i].e <= length)
    && (forall i, j | 0 <= i < j < |edits| :: edits[i].e <= edits[j].s)
  }

  lemma {:induction false} ApartTail(edits: seq<Edit>, from: nat, length: nat)
    requires Apart(edits, from, length) && edits != []
    ensures Apart(edits[1..], edits[0].e, length)
  {
  }

  /** From `from` on: the text between the edits as it was, and each edit's text in its place. */
  function Woven(source: string, edits: seq<Edit>, from: nat): string
    requires Apart(edits, from, |source|)
  {
    if edits == [] then source[from..]
    else source[from..edits[0].s] + edits[0].text + Woven(source, edits[1..], edits[0].e)
  }

  function Replaced(source: string, e: Edit): string
    requires e.s <= e.e <= |source|
  {
    source[..e.s] + (e.text + source[e.e..])
  }

  /** The same by plain replacement, the last edit first so that no earlier offset moves. */
  function ReplacedBackwards(source: string, edits: seq<Edit>): string
    requires Apart(edits, 0, |source|)
    decreases |edits|
  {
    if edits == [] then source
    else ReplacedBackwards(Replaced(source, edits[|edits| - 1]), edits[..|edits| - 1])
  }

  lemma {:induction false} ReplacedKeepsHead(source: string, e: Edit, from: nat, to: nat)
    requires from <= to <= e.s <= e.e <= |source|
    ensures Replaced(source, e)[from..to] == source[from..to]
    ensures Replaced(source, e)[from..] == source[from..e.s] + e.text + source[e.e..]
  {
    var (head, tail) := (source[..e.s], e.text + source[e.e..]);
    assert (head + tail)[from..] == head[from..] + tail;
    assert head[from..] == source[from..e.s];
    Joined(source[from..e.s], e.text, source[e.e..]);
  }

  lemma {:induction false} Joined(a: string, b: string, c: string)
    ensures a + (b + c) == a + b + c
  {
  }

  lemma {:induction false} WovenLast(source: string, edits: seq<Edit>, from: nat)
    requires Apart(edits, from, |source|) && edits != []
    ensures var once := Replaced(source, edits[|edits| - 1]);
            Apart(edits[..|edits| - 1], from, |once|) &&
            Woven(source, edits, from) == Woven(once, edits[..|edits| - 1], from)
  {
    var e := edits[|edits| - 1];
    var once := Replaced(source, e);
    if |edits| == 1 {
      ReplacedKeepsHead(source, e, from, from);
    } else {
      ApartTail(edits, from, |source|);
      WovenLast(source, edits[1..], edits[0].e);
      assert edits[1..][..|edits| - 2] == edits[..|edits| - 1][1..];
      ReplacedKeepsHead(source, e, from, edits[0].s);
    }
  }

  lemma {:induction false} WovenIsReplacement(source: string, edits: seq<Edit>)
    requires Apart(edits, 0, |source|)
    ensures Woven(source, edits, 0) == ReplacedBackwards(source, edits)
    decreases |edits|
  {
    if edits == [] {
    } else {
      WovenLast(source, edits, 0);
      WovenIsReplacement(Replaced(source, edits[|edits| - 1]), edits[..|edits| - 1]);
    }
  }

  /** How far the text before edit `k` has moved. */
  function Shift(edits: seq<Edit>, k: nat): int
    requires k <= |edits|
  {
    if k == 0 then 0 else Shift(edits, k - 1) + |edits[k - 1].text| - (edits[k - 1].e - edits[k - 1].s)
  }

  lemma {:induction false} ShiftTail(edits: seq<Edit>, k: nat)
    requires 0 < k <= |edits|
    ensures Shift(edits, k) == Shift(edits[1..], k - 1) + |edits[0].text| - (edits[0].e - edits[0].s)
  {
    if k == 1 {
    } else {
      ShiftTail(edits, k - 1);
    }
  }

  predicate Holds(w: string, at: int, text: string) {
    0 <= at <= at + |text| <= |w| && w[at..at + |text|] == text
  }

  lemma {:induction false} HoldsBehind(head: string, tail: string, at: int, text: string)
    requires Holds(tail, at, text)
    ensures Holds(head + tail, |head| + at, text)
  {
    assert (head + tail)[|head| + at..|head| + at + |text|] == tail[at..at + |text|];
  }

  lemma {:induction false} FirstText(source: string, edits: seq<Edit>, from: nat)
    requires Apart(edits, from, |source|) && edits != []
    ensures Holds(Woven(source, edits, from), edits[0].s - from, edits[0].text)
  {
    ApartTail(edits, from, |source|);
    var gap, text, tail := source[from..edits[0].s], edits[0].text, Woven(source, edits[1..], edits[0].e);
    Joined(gap, text, tail);
    assert (text + tail)[0..|text|] == text;
    HoldsBehind(gap, text + tail, 0, text);
  }

  /** Where edit `k`'s text comes to stand, counted piece by piece. */
  function Place(edits: seq<Edit>, from: nat, k: nat): int
    requires k < |edits|
  {
    edits[0].s - from + if k == 0 then 0 else |edits[0].text| + Place(edits[1..], edits[0].e, k - 1)
  }

  lemma {:induction false} PlaceIsShifted(edits: seq<Edit>, from: nat, k: nat)
    requires k < |edits|
    ensures Place(edits, from, k) == edits[k].s - from + Shift(edits, k)
  {
    if k == 0 {
    } else {
      PlaceIsShifted(edits[1..], edits[0].e, k - 1);
      ShiftTail(edits, k);
    }
  }

  lemma {:induction false} TextAtPlace(source: string, edits: seq<Edit>, from: nat, k: nat)
    requires Apart(edits, from, |source|) && k < |edits|
    ensures Holds(Woven(source, edits, from), Place(edits, from, k), edits[k].text)
  {
    if k == 0 {
      FirstText(source, edits, from);
      assert Place(edits, from, 0) == edits[0].s - from;
    } else {
      ApartTail(edits, from, |source|);
      TextAtPlace(source, edits[1..], edits[0].e, k - 1);
      FurtherText(source, edits, from, k);
    }
  }

  /** Edit `k`'s text stands at its own offset moved by the shift. */
  lemma {:induction false} TextAtShiftedOffset(source: string, edits: seq<Edit>, from: nat, k: nat)
    requires Apart(edits, from, |source|) && k < |edits|
    ensures Holds(Woven(source, edits, from), edits[k].s - from + Shift(edits, k), edits[k].text)
  {
    TextAtPlace(source, edits, from, k);
    PlaceIsShifted(edits, from, k);
  }

  lemma {:induction false} FurtherText(source: string, edits: seq<Edit>, from: nat, k: nat)
    requires Apart(edits, from, |source|) && 0 < k < |edits| && Apart(edits[1..], edits[0].e, |source|)
    requires Holds(Woven(source, edits[1..], edits[0].e), Place(edits[1..], edits[0].e, k - 1), edits[1..][k - 1].text)
    ensures Holds(Woven(source, edits, from), Place(edits, from, k), edits[k].text)
  {
    var (gap, rest) := (source[from..edits[0].s], Woven(source, edits[1..], edits[0].e));
    var (at, text) := (Place(edits[1..], edits[0].e, k - 1), edits[1..][k - 1].text);
    HoldsBehind(gap + edits[0].text, rest, at, text);
    assert |gap + edits[0].text| + at == Place(edits, from, k);
  }

  // ---------- the edits of a bundle ----------

  lemma {:induction false} EditsAreApart(host: Host, source: string, imports: seq<Import>, from: nat)
    requires Ordered(source, imports) && from <= |source| && forall i | 0 <= i < |imports| :: from <= imports[i].s
    ensures Apart(Edits(host, source, imports), from, |source|)
  {
    if imports == [] {
    } else {
      EditsAreApart(host, source, imports[1..], imports[0].e);
    }
  }

  /** Points the bundle's imports at the host. A normal return is the source with exactly the found
      specifiers replaced; otherwise the first import that gives a reason to refuse decides. */
  method ResolveHostSpecifiers(host: Host, source: string, imports: seq<Import>) returns (r: Result<string, Error>)
    requires Ordered(source, imports)
    ensures r.Err? <==> exists i :: 0 <= i < |imports| && Refusal(host, source, imports[i]).Some?
    ensures r.Err? <==> exists i :: 0 <= i < |imports| && Unwelcome(host, source, imports[i])
    ensures r.Err? ==> exists i :: 0 <= i < |imports| && Refusal(host, source, imports[i]) == Some(r.error)
                                   && forall j | 0 <= j < i :: Refusal(host, source, imports[j]).None?
    ensures r.Ok? ==> Apart(Edits(host, source, imports), 0, |source|)
                      && r.value == ReplacedBackwards(source, Edits(host, source, imports))
  {
    var out: string, last: nat := "", 0;
    forall i | 0 <= i < |imports|
      ensures Refusal(host, source, imports[i]).Some? <==> Unwelcome(host, source, imports[i])
    {
      WhenRefused(host, source, imports[i]);
    }
    Begins(host, source, imports);
    for i := 0 to |imports|
      invariant forall j | 0 <= j < i :: Refusal(host, source, imports[j]).None?
      invariant Progress(host, source, imports, i, out, last)
    {
      var imp := imports[i];
      Proceeds(host, source, imports, i, out, last);
      if imp.form.Meta? {
        continue;
      }
      var spec := SpecifierOf(source, imp);
      if spec.None? {
        assert Refusal(host, source, imp) == Some(NonLiteral);
        return Err(NonLiteral);
      }
      var text := Replacement(host, spec.value, imp.form);
      if text.Some? {
        assert EditOf(host, source, imp) == Some(Edit(imp.s, imp.e, text.value));
        out := out + (source[last..imp.s] + text.value);
        last := imp.e;
        continue;
      }
      if !Relative(spec.value) {
        assert Refusal(host, source, imp) == Some(Disallowed(spec.value));
        return Err(Disallowed(spec.value));
      }
      assert EditOf(host, source, imp).None?;
    }
    Ends(host, source, imports, out, last);
    return Ok(out + source[last..]);
  }

  /** With the first `i` imports done: what is out, and the rest woven from `last` on, is the whole. */
  ghost predicate Progress(host: Host, source: string, imports: seq<Import>, i: nat, out: string, last: nat)
    requires Ordered(source, imports) && i <= |imports|
  {
    && last <= |source| && (forall j | i <= j < |imports| :: last <= imports[j].s)
    && Apart(Edits(host, source, imports), 0, |source|)
    && Apart(Edits(host, source, imports[i..]), last, |source|)
    && out + Woven(source, Edits(host, source, imports[i..]), last) == Woven(source, Edits(host, source, imports), 0)
  }

  lemma {:induction false} Begins(host: Host, source: string, imports: seq<Import>)
    requires Ordered(source, imports)
    ensures Progress(host, source, imports, 0, "", 0)
  {
    EditsAreApart(host, source, imports, 0);
    assert imports[0..] == imports;
  }

  /** One import: kept as it is, or its text replaced. */
  lemma {:induction false} Proceeds(host: Host, source: string, imports: seq<Import>, i: nat, out: string, last: nat)
    requires Ordered(source, imports) && i < |imports| && Progress(host, source, imports, i, out, last)
    ensures last <= imports[i].s
    ensures var edit := EditOf(host, source, imports[i]);
            if edit.None? then Progress(host, source, imports, i + 1, out, last)
            else Progress(host, source, imports, i + 1,
                          out + (source[last..imports[i].s] + edit.value.text), imports[i].e)
  {
    assert imports[i..][1..] == imports[i + 1..];
    NextEdit(host, source, imports[i..], last);
    var edit := EditOf(host, source, imports[i]);
    if edit.Some? {
      var rest := Woven(source, Edits(host, source, imports[i + 1..]), imports[i].e);
      Joined(out, source[last..imports[i].s] + edit.value.text, rest);
    }
  }

  lemma {:induction false} Ends(host: Host, source: string, imports: seq<Import>, out: string, last: nat)
    requires Ordered(source, imports) && Progress(host, source, imports, |imports|, out, last)
    ensures Apart(Edits(host, source, imports), 0, |source|)
    ensures out + source[last..] == ReplacedBackwards(source, Edits(host, source, imports))
  {
    assert imports[|imports|..] == [];
    WovenIsReplacement(source, Edits(host, source, imports));
  }

  /** How the text still to be woven starts with the next import. */
  lemma {:induction false} NextEdit(host: Host, source: string, imports: seq<Import>, from: nat)
    requires Ordered(source, imports) && imports != [] && Apart(Edits(host, source, imports), from, |source|)
    ensures var (edits, rest, edit) :=
              (Edits(host, source, imports), Edits(host, source, imports[1..]), EditOf(host, source, imports[0]));
            && (edit.None? ==> edits == rest)
            && (edit.Some? ==>
                  && edit.value.s == imports[0].s && edit.value.e == imports[0].e && Apart(rest, imports[0].e, |source|)
                  && from <= imports[0].s
                  && Woven(source, edits, from) ==
                     source[from..imports[0].s] + edit.value.text + Woven(source, rest, imports[0].e))
  {
    var edits, edit := Edits(host, source, imports), EditOf(host, source, imports[0]);
    if edit.Some? {
      assert edits[0] == edit.value && edits[1..] == Edits(host, source, imports[1..]);
      ApartTail(edits, from, |source|);
    }
  }

  /** `s` runs up to the first quote that no backslash takes away, and ends there. */
  predicate ClosesAtEnd(s: string, quote: char)
    decreases |s|
  {
    s != "" &&
    if s[0] == '\\' then |s| > 1 && ClosesAtEnd(s[2..], quote)
    else if s[0] == quote then |s| == 1
    else ClosesAtEnd(s[1..], quote)
  }

  /** One string literal and nothing else. */
  predicate OneLiteral(raw: string) {
    |raw| >= 2 && (raw[0] == '"' || raw[0] == '\'') && ClosesAtEnd(raw[1..], raw[0])
  }

  lemma {:induction false} PlainUrlsCloseAtEnd(url: string)
    requires PlainUrl(url)
    ensures OneLiteral(JsonText(url)) && JsonText(url)[0] == '"'
  {
    assert JsonText(url)[1..] == url + "\"";
    PlainTextCloses(url);
  }

  /** A rewritten dynamic import is one string literal again, in double quotes. */
  lemma {:induction false} RewrittenDynamicsAreLiterals(host: Host, source: string, imp: Import)
    requires imp.s <= imp.e <= |source| && Usable(host) && imp.form.Dynamic?
    requires SpecifierOf(source, imp).Some? && SpecifierOf(source, imp).value in host.urls
    ensures var edit := EditOf(host, source, imp);
            edit.Some? && OneLiteral(edit.value.text) && edit.value.text[0] == '"'
  {
    PlainUrlsCloseAtEnd(host.urls[SpecifierOf(source, imp).value]);
  }

  lemma {:induction false} PlainTextCloses(text: string)
    requires forall i | 0 <= i < |text| :: text[i] != '"' && text[i] != '\\'
    ensures ClosesAtEnd(text + "\"", '"')
  {
    if text == "" {
      assert text + "\"" == "\"";
    } else {
      PlainTextCloses(text[1..]);
      assert (text + "\"")[1..] == text[1..] + "\"";
    }
  }

  lemma {:induction false} HeldTextReads(out: string, at: nat, text: string, url: string, form: Form)
    requires !form.Meta? && PlainUrl(url)
    requires Holds(out, at, text) && text == if form.Dynamic? then JsonText(url) else url
    ensures SpecifierOf(out, Import(at, at + |text|, form)) == Some(url)
  {
    assert JsonText(url)[1..|JsonText(url)| - 1] == url;
  }

  lemma {:induction false} TextIsTheUrl(host: Host, source: string, imp: Import, edit: Edit)
    requires imp.s <= imp.e <= |source| && EditOf(host, source, imp) == Some(edit)
    requires SpecifierOf(source, imp).value in host.urls
    ensures var url := host.urls[SpecifierOf(source, imp).value];
            !imp.form.Meta? && edit.text == if imp.form.Dynamic? then JsonText(url) else url
  {
  }

  lemma {:induction false} EditsReadBack(source: string, edits: seq<Edit>, k: nat)
    requires Apart(edits, 0, |source|) && k < |edits|
    ensures Holds(ReplacedBackwards(source, edits), edits[k].s + Shift(edits, k), edits[k].text)
  {
    WovenIsReplacement(source, edits);
    TextAtShiftedOffset(source, edits, 0, k);
  }

  /** Reading a rewritten import back at its shifted place gives the host's URL. */
  lemma {:induction false} RewrittenImportsReadBack(host: Host, source: string, imports: seq<Import>, k: nat,
                                                    imp: Import)
    requires Ordered(source, imports) && Usable(host)
    requires k < |Edits(host, source, imports)| && imp in imports
    requires EditOf(host, source, imp) == Some(Edits(host, source, imports)[k])
    requires SpecifierOf(source, imp).value in host.urls
    ensures Apart(Edits(host, source, imports), 0, |source|)
    ensures var edits := Edits(host, source, imports);
            var (out, at) := (ReplacedBackwards(source, edits), edits[k].s + Shift(edits, k));
            && Holds(out, at, edits[k].text)
            && SpecifierOf(out, Import(at, at + |edits[k].text|, imp.form)) ==
               Some(host.urls[SpecifierOf(source, imp).value])
  {
    var edits := Edits(host, source, imports);
    EditsAreApart(host, source, imports, 0);
    TextIsTheUrl(host, source, imp, edits[k]);
    EditsReadBack(source, edits, k);
    var (out, at) := (ReplacedBackwards(source, edits), edits[k].s + Shift(edits, k));
    HeldTextReads(out, at, edits[k].text, host.urls[SpecifierOf(source, imp).value], imp.form);
  }

  /** The edits are exactly those of the imports. */
  lemma {:induction false} EditsAreTheImports(host: Host, source: string, imports: seq<Import>, edit: Edit)
    requires forall i | 0 <= i < |imports| :: imports[i].s <= imports[i].e <= |source|
    ensures edit in Edits(host, source, imports) <==>
              exists i :: 0 <= i < |imports| && EditOf(host, source, imports[i]) == Some(edit)
  {
    if imports == [] {
    } else {
      var rest := imports[1..];
      EditsAreTheImports(host, source, rest, edit);
      if i :| 0 <= i < |rest| && EditOf(host, source, rest[i]) == Some(edit) {
        assert imports[i + 1] == rest[i];
      }
      if i :| 0 <= i < |imports| && EditOf(host, source, imports[i]) == Some(edit) {
        assert i > 0 ==> rest[i - 1] == imports[i];
      }
    }
  }

  /** Every import of a host specifier, static or dynamic, is rewritten over its whole range, to the URL or
      to the URL as a JSON string. */
  lemma {:induction false} HostImportsAreRewritten(host: Host, source: string, imports: seq<Import>, i: nat)
    requires Ordered(source, imports) && i < |imports| && !imports[i].form.Meta?
    requires SpecifierOf(source, imports[i]).Some? && SpecifierOf(source, imports[i]).value in host.urls
    ensures var (imp, url) := (imports[i], host.urls[SpecifierOf(source, imports[i]).value]);
            var edit := Edit(imp.s, imp.e, if imp.form.Dynamic? then "\"" + url + "\"" else url);
            EditOf(host, source, imp) == Some(edit) && edit in Edits(host, source, imports)
  {
    EditsAreTheImports(host, source, imports, EditOf(host, source, imports[i]).value);
  }

  /** Nothing is rewritten but imports whose specifier the lookup finds. */
  lemma {:induction false} OnlyFoundImportsAreRewritten(host: Host, source: string, imp: Import)
    requires imp.s <= imp.e <= |source|
    ensures EditOf(host, source, imp).Some? <==>
              && !imp.form.Meta? && SpecifierOf(source, imp).Some?
              && (SpecifierOf(source, imp).value in host.urls || SpecifierOf(source, imp).value in host.inherited)
  {
  }

  // ---------- which specifiers get through ----------

  lemma {:induction false} ClosingQuoteIsLast(s: string, quote: char)
    requires ClosesAtEnd(s, quote) && quote != '\\'
    ensures s[|s| - 1] == quote
    decreases |s|
  {
    if s[0] == '\\' {
      ClosingQuoteIsLast(s[2..], quote);
    } else if s[0] == quote {
    } else {
      ClosingQuoteIsLast(s[1..], quote);
    }
  }

  /** `./` or `../` and anything behind it. */
  ghost predicate Dotted(spec: string) {
    exists rest: string :: spec == "./" + rest || spec == "../" + rest
  }

  /** A specifier the lookup knows nothing of is accepted exactly when it is such a path. */
  lemma {:induction false} UnknownSpecifiersMustBeDotted(host: Host, source: string, imp: Import, spec: string)
    requires imp.s <= imp.e <= |source| && !imp.form.Meta? && SpecifierOf(source, imp) == Some(spec)
    requires spec !in host.urls && spec !in host.inherited
    ensures Refusal(host, source, imp).None? <==> Dotted(spec)
    ensures !Dotted(spec) ==> Refusal(host, source, imp) == Some(Disallowed(spec))
  {
    RelativeIsDotted(spec);
  }

  lemma {:induction false} RelativeIsDotted(spec: string)
    ensures Relative(spec) <==> Dotted(spec)
  {
    if Relative(spec) {
      if spec[..2] == "./" {
        assert spec == "./" + spec[2..];
      } else {
        assert spec == "../" + spec[3..];
      }
    }
    if rest: string :| spec == "./" + rest || spec == "../" + rest {
      assert spec == "./" + rest ==> spec[..2] == "./";
      assert spec == "../" + rest ==> spec[..3] == "../";
    }
  }

  /** What is refused: an import whose specifier cannot be read, or is unknown and no such path. */
  ghost predicate Unwelcome(host: Host, source: string, imp: Import)
    requires imp.s <= imp.e <= |source|
  {
    !imp.form.Meta? &&
    var spec := SpecifierOf(source, imp);
    spec.None? || (spec.value !in host.urls && spec.value !in host.inherited && !Dotted(spec.value))
  }

  lemma {:induction false} WhenRefused(host: Host, source: string, imp: Import)
    requires imp.s <= imp.e <= |source|
    ensures Refusal(host, source, imp).Some? <==> Unwelcome(host, source, imp)
  {
    if SpecifierOf(source, imp).Some? {
      RelativeIsDotted(SpecifierOf(source, imp).value);
    }
  }

  /** So bare names, absolute paths, addresses that name a host, and whole URLs are all refused. */
  lemma {:induction false} RemoteSpecifiersAreRefused(host: Host, source: string, imp: Import, spec: string)
    requires imp.s <= imp.e <= |source| && !imp.form.Meta? && SpecifierOf(source, imp) == Some(spec)
    requires spec !in host.urls && spec !in host.inherited
    requires || spec == "" || spec[0] != '.'
             || (exists rest: string :: spec == "/" + rest || spec == "//" + rest)
             || (exists scheme: string, rest: string :: scheme != "" && '.' != scheme[0] && spec == scheme + ":" + rest)
    ensures Refusal(host, source, imp) == Some(Disallowed(spec))
  {
    UnknownSpecifiersMustBeDotted(host, source, imp, spec);
    if rest: string :| spec == "/" + rest || spec == "//" + rest {
      assert spec[0] == '/';
    }
    if scheme: string, rest: string :| scheme != "" && '.' != scheme[0] && spec == scheme + ":" + rest {
      assert spec[0] == scheme[0];
    }
    DotsComeFirst(spec);
  }

  lemma {:induction false} DotsComeFirst(spec: string)
    ensures Dotted(spec) ==> spec != "" && spec[0] == '.'
  {
    if rest: string :| spec == "./" + rest || spec == "../" + rest {
      assert spec[0] == '.';
    }
  }

  /** The rule as it is documented: a dynamic import's argument is a string literal, and every specifier
      is the host's or relative. */
  ghost predicate Documented(host: Host, source: string, imp: Import)
    requires imp.s <= imp.e <= |source|
  {
    imp.form.Meta? ||
    ((imp.form.Dynamic? ==> OneLiteral(source[imp.s..imp.e])) &&
     var spec := SpecifierOf(source, imp);
     spec.Some? && (spec.value in host.urls || Dotted(spec.value)))
  }

  /** Every literal argument gives a specifier: the text between its quotes. */
  lemma {:induction false} LiteralsAreRead(source: string, imp: Import)
    requires imp.s <= imp.e <= |source| && imp.form.Dynamic? && OneLiteral(source[imp.s..imp.e])
    ensures SpecifierOf(source, imp) == Some(source[imp.s..imp.e][1..imp.e - imp.s - 1])
  {
    var raw := source[imp.s..imp.e];
    ClosingQuoteIsLast(raw[1..], raw[0]);
  }

  /** What the rule allows is accepted. What it does not allow is accepted exactly when the specifier is a
      name every object inherits, or is the host's or relative but was cut out of an expression that is
      not one literal, from its first quote to its last. */
  lemma {:induction false} WhenImportsEscape(host: Host, source: string, imp: Import)
    requires imp.s <= imp.e <= |source|
    ensures Documented(host, source, imp) ==> Refusal(host, source, imp).None?
    ensures Refusal(host, source, imp).None? && !Documented(host, source, imp) <==>
              && !imp.form.Meta? && SpecifierOf(source, imp).Some?
              && var spec := SpecifierOf(source, imp).value;
                 || (spec in host.inherited && spec !in host.urls && !Dotted(spec))
                 || (imp.form.Dynamic? && !OneLiteral(source[imp.s..imp.e]) && (spec in host.urls || Dotted(spec)))
  {
    if SpecifierOf(source, imp).Some? {
      RelativeIsDotted(SpecifierOf(source, imp).value);
    }
  }

  /** A static import can escape by an inherited name only, and so can a dynamic one whose argument is a
      literal. */
  lemma {:induction false} LiteralsEscapeByInheritedNamesOnly(host: Host, source: string, imp: Import)
    requires imp.s <= imp.e <= |source| && (imp.form.Dynamic? ==> OneLiteral(source[imp.s..imp.e]))
    ensures !imp.form.Meta? ==> SpecifierOf(source, imp).Some?
    ensures Refusal(host, source, imp).None? && !Documented(host, source, imp) <==>
              !imp.form.Meta? &&
              var spec := SpecifierOf(source, imp).value;
              spec in host.inherited && spec !in host.urls && !Dotted(spec)
  {
    if imp.form.Dynamic? {
      LiteralsAreRead(source, imp);
    }
    WhenImportsEscape(host, source, imp);
  }

  /** `import("./" && "x")`: the argument is no literal and reads as relative. */
  lemma {:induction false} AnExpressionEscapes(host: Host)
    ensures var (arg, imp) := ("\"./\" && \"x\"", Import(0, 11, Dynamic));
            && |arg| == 11 && SpecifierOf(arg, imp) == Some("./\" && \"x")
            && Refusal(host, arg, imp).None? && !Documented(host, arg, imp)
  {
    var arg := "\"./\" && \"x\"";
    assert arg[0..11] == arg && arg[1..10] == "./\" && \"x";
    var (tail, spec) := (arg[1..], arg[1..10]);
    assert tail[1..][1..][0] == '"' && !ClosesAtEnd(tail[1..][1..], '"');
    assert !ClosesAtEnd(tail[1..], '"') && !ClosesAtEnd(tail, '"');
    assert spec[..2] == [spec[0], spec[1]] == "./";
    RelativeIsDotted(spec);
  }

  lemma {:induction false} AnInheritedNameEscapes()
    ensures var found := Inherited("function Object() { [native code] }", "undefined");
            var host := Host(map[], map["constructor" := found]);
            var imp := Import(0, 11, Static);
            && SpecifierOf("constructor", imp) == Some("constructor")
            && Refusal(host, "constructor", imp).None? && !Documented(host, "constructor", imp)
            && EditOf(host, "constructor", imp) == Some(Edit(0, 11, found.printed))
            && EditOf(host, "'constructor'", Import(0, 13, Dynamic)) == Some(Edit(0, 13, found.json))
  {
    assert "constructor"[0..11] == "constructor";
    assert "'constructor'"[0..13] == "'constructor'" && "'constructor'"[1..12] == "constructor";
    assert "constructor"[..2] != "./" && "constructor"[..3] != "../" by {
      assert "constructor"[..2][0] == 'c' && "constructor"[..3][0] == 'c';
    }
    RelativeIsDotted("constructor");
  }
}
