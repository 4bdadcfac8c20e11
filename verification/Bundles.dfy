/** Locale bundles: files merged per locale, then each locale filled in from its chain of fallbacks by
    a recursion that remembers what it has resolved. */
module Bundles {
  import opened Outcomes

  type Section = map<string, string>

  type Bundle = map<string, Section>

  datatype File = File(locale: string, sections: Bundle)

  // ---------- merging the files ----------

  function Added(raw: map<string, Bundle>, f: File): map<string, Bundle> {
    var bundle := if f.locale in raw then raw[f.locale] else map[];
    raw[f.locale := map k | k in bundle.Keys + f.sections.Keys ::
      (if k in bundle then bundle[k] else map[]) + (if k in f.sections then f.sections[k] else map[])]
  }

  function Merged(files: seq<File>): map<string, Bundle> {
    if files == [] then map[] else Added(Merged(files[..|files| - 1]), files[|files| - 1])
  }

  /** For each locale, section and key, the last file that has the key decides. */
  lemma {:induction false} LastFileWins(files: seq<File>, i: nat, k: string, key: string)
    requires i < |files| && k in files[i].sections && key in files[i].sections[k]
    requires forall j | i < j < |files| && files[j].locale == files[i].locale && k in files[j].sections ::
               key !in files[j].sections[k]
    ensures var (raw, l) := (Merged(files), files[i].locale);
            l in raw && k in raw[l] && key in raw[l][k] && raw[l][k][key] == files[i].sections[k][key]
    decreases |files|
  {
    if i == |files| - 1 {
    } else {
      LastFileWins(files[..|files| - 1], i, k, key);
    }
  }

  // ---------- the fallback relation ----------

  /** The fallback a locale declares, if it is another locale that exists. */
  function Next(raw: map<string, Bundle>, locale: string): Option<string> {
    if locale in raw && "_meta" in raw[locale] && "fallback" in raw[locale]["_meta"] then
      var f := raw[locale]["_meta"]["fallback"];
      if f == "" || f == locale || f !in raw then None else Some(f)
    else None
  }

  /** A declared fallback counts if it is named, another locale, and there. */
  lemma {:induction false} WhenFallbackCounts(raw: map<string, Bundle>, locale: string, f: string)
    ensures Next(raw, locale) == Some(f) <==>
              && locale in raw && "_meta" in raw[locale] && "fallback" in raw[locale]["_meta"]
              && raw[locale]["_meta"]["fallback"] == f && f != "" && f != locale && f in raw
  {
  }

  /** The merged files hold a locale, section and key exactly when one of the files does. */
  lemma {:induction false} MergedExactly(files: seq<File>, l: string, k: string, key: string)
    ensures l in Merged(files) <==> exists f :: f in files && f.locale == l
    ensures l in Merged(files) && k in Merged(files)[l] <==>
              exists f :: f in files && f.locale == l && k in f.sections
    ensures l in Merged(files) && k in Merged(files)[l] && key in Merged(files)[l][k] <==>
              exists f :: f in files && f.locale == l && k in f.sections && key in f.sections[k]
  {
    if files == [] {
    } else {
      var (init, last) := (files[..|files| - 1], files[|files| - 1]);
      MergedExactly(init, l, k, key);
      assert forall f :: f in files <==> f in init || f == last;
    }
  }

  /** A whole chain: from its first locale, fallback by fallback, to one without any. */
  ghost predicate Chain(raw: map<string, Bundle>, chain: seq<string>) {
    && chain != [] && chain[0] in raw
    && (forall i | 0 <= i < |chain| - 1 :: Next(raw, chain[i]) == Some(chain[i + 1]))
    && Next(raw, chain[|chain| - 1]) == None
  }

  function Own(raw: map<string, Bundle>, locale: string): Bundle {
    if locale in raw then raw[locale] else map[]
  }

  /** Each locale's strings over those of everything behind it in the walk. */
  function Layered(raw: map<string, Bundle>, walk: seq<string>): Bundle {
    if walk == [] then map[] else Layered(raw, walk[1..]) + Own(raw, walk[0])
  }

  /** The section a user of the layered bundle sees is that of the nearest locale that has it. */
  lemma {:induction false} NearestLocaleWins(raw: map<string, Bundle>, walk: seq<string>, i: nat, k: string)
    requires i < |walk| && k in Own(raw, walk[i]) && forall j | 0 <= j < i :: k !in Own(raw, walk[j])
    ensures k in Layered(raw, walk) && Layered(raw, walk)[k] == Own(raw, walk[i])[k]
  {
    if i == 0 {
    } else {
      NearestLocaleWins(raw, walk[1..], i - 1, k);
    }
  }

  lemma {:induction false} FirstLink(raw: map<string, Bundle>, c: seq<string>)
    requires Chain(raw, c)
    ensures Next(raw, c[0]) == if |c| > 1 then Some(c[1]) else None
  {
  }

  lemma {:induction false} OneChain(raw: map<string, Bundle>, c: seq<string>, d: seq<string>)
    requires Chain(raw, c) && Chain(raw, d) && c[0] == d[0]
    ensures c == d
  {
    FirstLink(raw, c);
    FirstLink(raw, d);
    if |c| == 1 {
    } else {
      ChainTail(raw, c);
      ChainTail(raw, d);
      OneChain(raw, c[1..], d[1..]);
      assert c == [c[0]] + c[1..] && d == [d[0]] + d[1..];
    }
  }

  lemma {:induction false} ChainTail(raw: map<string, Bundle>, c: seq<string>)
    requires Chain(raw, c) && |c| > 1
    ensures Chain(raw, c[1..])
  {
    assert Next(raw, c[0]) == Some(c[1]);
  }

  /** `to` lies one or more fallbacks behind `from`. */
  ghost predicate Behind(raw: map<string, Bundle>, from: string, to: string) {
    exists path: seq<string> :: Walk(raw, path, from, to)
  }

  ghost predicate Walk(raw: map<string, Bundle>, path: seq<string>, from: string, to: string) {
    && |path| > 1 && path[0] == from && path[|path| - 1] == to
    && forall i | 0 <= i < |path| - 1 :: Next(raw, path[i]) == Some(path[i + 1])
  }

  lemma {:induction false} WalkFollowsChain(raw: map<string, Bundle>, c: seq<string>, path: seq<string>, i: nat)
    requires Chain(raw, c) && path != [] && c[0] == path[0] && i < |path|
    requires forall j | 0 <= j < |path| - 1 :: Next(raw, path[j]) == Some(path[j + 1])
    ensures i < |c| && c[i] == path[i]
  {
    if i == 0 {
    } else {
      WalkFollowsChain(raw, c, path, i - 1);
      assert Next(raw, path[i - 1]) == Some(path[i]);
      assert i - 1 < |c| - 1 ==> Next(raw, c[i - 1]) == Some(c[i]);
    }
  }

  /** A locale with a whole chain never comes round to itself. */
  lemma {:induction false} ChainsDoNotReturn(raw: map<string, Bundle>, c: seq<string>)
    requires Chain(raw, c)
    ensures !Behind(raw, c[0], c[0])
  {
    if Behind(raw, c[0], c[0]) {
      var path :| Walk(raw, path, c[0], c[0]);
      var n := |path| - 1;
      WalkFollowsChain(raw, c, path, n);
      var rest := c[n..];
      forall i | 0 <= i < |rest| - 1 ensures Next(raw, rest[i]) == Some(rest[i + 1]) {
        assert Next(raw, c[n + i]) == Some(c[n + i + 1]);
      }
      assert Chain(raw, rest);
      OneChain(raw, c, rest);
      assert false;
    }
  }

  lemma {:induction false} BehindNext(raw: map<string, Bundle>, from: string, to: string, next: string)
    requires Next(raw, to) == Some(next) && (from == to || Behind(raw, from, to))
    ensures Behind(raw, from, next)
  {
    if from == to {
      assert Walk(raw, [from, next], from, next);
    } else {
      var path :| Walk(raw, path, from, to);
      assert Walk(raw, path + [next], from, next);
    }
  }

  // ---------- the resolver ----------

  /** The bundle of one locale and what is remembered after it. */
  function Resolved(raw: map<string, Bundle>, memo: map<string, Bundle>, resolving: set<string>, locale: string)
      : (Bundle, map<string, Bundle>)
    decreases raw.Keys - resolving
  {
    if locale in memo then (memo[locale], memo)
    else if locale !in raw then (map[], memo)
    else if Next(raw, locale).None? || locale in resolving then (raw[locale], memo[locale := raw[locale]])
    else
      var (behind, memo') := Resolved(raw, memo, resolving + {locale}, Next(raw, locale).value);
      (behind + raw[locale], memo'[locale := behind + raw[locale]])
  }

  function ResolveAll(raw: map<string, Bundle>, order: seq<string>): map<string, Bundle> {
    if order == [] then map[] else Resolved(raw, ResolveAll(raw, order[..|order| - 1]), {}, order[|order| - 1]).1
  }

  /** Whatever is remembered of a locale with a whole chain is that chain's layering. */
  ghost predicate Sound(raw: map<string, Bundle>, memo: map<string, Bundle>) {
    forall c | Chain(raw, c) && c[0] in memo :: memo[c[0]] == Layered(raw, c)
  }

  lemma {:induction false} ResolveIsLayering(raw: map<string, Bundle>, memo: map<string, Bundle>,
                                             resolving: set<string>,
                                             locale: string)
    requires Sound(raw, memo) && forall r | r in resolving :: Behind(raw, r, locale)
    ensures var (b, memo') := Resolved(raw, memo, resolving, locale);
            && Sound(raw, memo')
            && (forall c | Chain(raw, c) && c[0] == locale :: b == Layered(raw, c))
            && memo.Keys <= memo'.Keys && (locale in raw ==> locale in memo')
    decreases raw.Keys - resolving
  {
    if locale in memo || locale !in raw {
      return;
    }
    var (b, memo') := Resolved(raw, memo, resolving, locale);
    if Next(raw, locale).None? || locale in resolving {
      forall c | Chain(raw, c) && c[0] == locale ensures b == Layered(raw, c) {
        ChainsDoNotReturn(raw, c);
        FirstLink(raw, c);
        assert c == [locale] && c[1..] == [];
        assert Layered(raw, []) + raw[locale] == raw[locale];
      }
    } else {
      var next := Next(raw, locale).value;
      forall r | r in resolving + {locale} ensures Behind(raw, r, next) {
        BehindNext(raw, r, locale, next);
      }
      ResolveIsLayering(raw, memo, resolving + {locale}, next);
      forall c | Chain(raw, c) && c[0] == locale ensures b == Layered(raw, c) {
        FirstLink(raw, c);
        ChainTail(raw, c);
        assert Resolved(raw, memo, resolving + {locale}, next).0 == Layered(raw, c[1..]);
      }
    }
  }

  lemma {:induction false} ResolveAllIsSound(raw: map<string, Bundle>, order: seq<string>)
    ensures Sound(raw, ResolveAll(raw, order))
    ensures forall l | l in order && l in raw :: l in ResolveAll(raw, order)
  {
    if order == [] {
    } else {
      var init, last := order[..|order| - 1], order[|order| - 1];
      ResolveAllIsSound(raw, init);
      ResolveIsLayering(raw, ResolveAll(raw, init), {}, last);
      assert order == init + [last];
    }
  }

  /** A locale whose fallbacks end gets its chain layered, in whatever order the locales are taken and
      whatever was remembered before. */
  lemma {:induction false} OrderDoesNotMatter(raw: map<string, Bundle>, order: seq<string>, other: seq<string>,
                                              c: seq<string>)
    requires Chain(raw, c) && c[0] in order && c[0] in other
    ensures c[0] in ResolveAll(raw, order) && c[0] in ResolveAll(raw, other)
    ensures ResolveAll(raw, order)[c[0]] == Layered(raw, c)
    ensures ResolveAll(raw, order)[c[0]] == ResolveAll(raw, other)[c[0]]
  {
    ResolveAllIsSound(raw, order);
    ResolveAllIsSound(raw, other);
  }

  // ---------- locales that fall back on each other ----------

  ghost predicate Links(raw: map<string, Bundle>, path: seq<string>) {
    forall i {:trigger Next(raw, path[i])} | 0 <= i < |path| - 1 :: Next(raw, path[i]) == Some(path[i + 1])
  }

  ghost predicate Distinct(s: seq<string>) {
    forall i, j | 0 <= i < j < |s| :: s[i] != s[j]
  }

  /** The locales of `xs` fall back on each other in a ring. */
  ghost predicate IsRing(raw: map<string, Bundle>, xs: seq<string>) {
    |xs| >= 2 && Distinct(xs) && Links(raw, xs + [xs[0]])
  }

  /** `tail` is the way from outside the ring to its member number `j`; from a member itself it is empty. */
  ghost predicate LeadsInto(raw: map<string, Bundle>, tail: seq<string>, xs: seq<string>, j: nat) {
    && j < |xs| && Distinct(tail) && Links(raw, tail + [xs[j]])
    && forall l | l in tail :: l !in xs
  }

  function Head(tail: seq<string>, member: string): string {
    if tail == [] then member else tail[0]
  }

  /** `l` is a member of `xs` or has one behind it. */
  ghost predicate Reaches(raw: map<string, Bundle>, l: string, xs: seq<string>) {
    exists path: seq<string> :: path != [] && path[0] == l && path[|path| - 1] in xs && Links(raw, path)
  }

  lemma {:induction false} MemberReaches(raw: map<string, Bundle>, l: string, xs: seq<string>)
    requires l in xs
    ensures Reaches(raw, l, xs)
  {
    assert Links(raw, [l]) && [l][0] == l;
  }

  lemma {:induction false} ReachesOn(raw: map<string, Bundle>, l: string, next: string, xs: seq<string>)
    requires Next(raw, l) == Some(next) && Reaches(raw, next, xs)
    ensures Reaches(raw, l, xs)
  {
    var path: seq<string> :| path != [] && path[0] == next && path[|path| - 1] in xs && Links(raw, path);
    var longer := [l] + path;
    forall i | 0 <= i < |longer| - 1 ensures Next(raw, longer[i]) == Some(longer[i + 1]) {
      if i > 0 {
        assert Next(raw, path[i - 1]) == Some(path[i]);
      }
    }
    assert longer[|longer| - 1] == path[|path| - 1];
  }

  lemma {:induction false} RingLink(raw: map<string, Bundle>, xs: seq<string>, j: nat)
    requires IsRing(raw, xs) && j < |xs|
    ensures Next(raw, xs[j]) == Some((xs + [xs[0]])[j + 1])
  {
    var turn := xs + [xs[0]];
    assert Next(raw, turn[j]) == Some(turn[j + 1]);
  }

  lemma {:induction false} TailLink(raw: map<string, Bundle>, tail: seq<string>, xs: seq<string>, j: nat)
    requires LeadsInto(raw, tail, xs, j) && tail != []
    ensures LeadsInto(raw, tail[1..], xs, j) && tail[0] !in tail[1..] && tail[0] !in xs
    ensures forall l :: l in tail <==> l == tail[0] || l in tail[1..]
    ensures Next(raw, tail[0]) == Some(Head(tail[1..], xs[j]))
  {
    var way := tail + [xs[j]];
    assert Next(raw, way[0]) == Some(way[1]);
    assert tail[1..] + [xs[j]] == way[1..];
    forall i | 0 <= i < |way[1..]| - 1 ensures Next(raw, way[1..][i]) == Some(way[1..][i + 1]) {
      assert Next(raw, way[i + 1]) == Some(way[i + 2]);
    }
  }

  /** Whatever reaches the ring has one way into it that repeats no locale. */
  lemma {:induction false} WayIn(raw: map<string, Bundle>, path: seq<string>, xs: seq<string>)
      returns (tail: seq<string>, j: nat)
    requires path != [] && path[|path| - 1] in xs && Links(raw, path)
    ensures LeadsInto(raw, tail, xs, j) && Head(tail, xs[j]) == path[0]
  {
    if path[0] in xs {
      tail := [];
      j :| j < |xs| && xs[j] == path[0];
    } else {
      var rest := path[1..];
      forall i | 0 <= i < |rest| - 1 ensures Next(raw, rest[i]) == Some(rest[i + 1]) {
        assert Next(raw, path[i + 1]) == Some(path[i + 2]);
      }
      assert Next(raw, path[0]) == Some(path[1]);
      tail, j := WayIn(raw, rest, xs);
      if path[0] in tail {
        var m :| 0 <= m < |tail| && tail[m] == path[0];
        Shortened(raw, tail, xs, j, m);
        tail := tail[m..];
      } else {
        Lengthened(raw, path[0], tail, xs, j);
        tail := [path[0]] + tail;
      }
    }
  }

  lemma {:induction false} Shortened(raw: map<string, Bundle>, tail: seq<string>, xs: seq<string>, j: nat, m: nat)
    requires LeadsInto(raw, tail, xs, j) && m < |tail|
    ensures LeadsInto(raw, tail[m..], xs, j)
  {
    if m == 0 {
    } else {
      TailLink(raw, tail, xs, j);
      Shortened(raw, tail[1..], xs, j, m - 1);
      assert tail[1..][m - 1..] == tail[m..];
    }
  }

  lemma {:induction false} Lengthened(raw: map<string, Bundle>, l: string, tail: seq<string>, xs: seq<string>, j: nat)
    requires LeadsInto(raw, tail, xs, j) && l !in tail && l !in xs && Next(raw, l) == Some(Head(tail, xs[j]))
    ensures LeadsInto(raw, [l] + tail, xs, j)
  {
    var way := tail + [xs[j]];
    assert [l] + tail + [xs[j]] == [l] + way;
    forall i | 0 <= i < |[l] + way| - 1 ensures Next(raw, ([l] + way)[i]) == Some(([l] + way)[i + 1]) {
      if i > 0 {
        assert Next(raw, way[i - 1]) == Some(way[i]);
      }
    }
  }

  // ---------- what is remembered of a ring ----------

  lemma {:induction false} Remembers(raw: map<string, Bundle>, memo: map<string, Bundle>, resolving: set<string>,
                                     l: string)
    ensures var (b, memo') := Resolved(raw, memo, resolving, l);
            && (forall m | m in memo :: m in memo' && memo'[m] == memo[m])
            && (l in raw ==> l in memo' && memo'[l] == b)
            && memo'.Keys <= memo.Keys + raw.Keys
    decreases raw.Keys - resolving
  {
    if l in memo || l !in raw || Next(raw, l).None? || l in resolving {
    } else {
      Remembers(raw, memo, resolving + {l}, Next(raw, l).value);
    }
  }

  ghost predicate Untouched(raw: map<string, Bundle>, xs: seq<string>, memo: map<string, Bundle>) {
    forall m | m in memo :: !Reaches(raw, m, xs)
  }

  /** A ring entered at its first member: each member has what lies on the walk from it to that member,
      a whole turn for the first member itself; whatever leads into the ring has its own strings over
      those of its fallback. */
  ghost predicate Entered(raw: map<string, Bundle>, xs: seq<string>, memo: map<string, Bundle>) {
    && (forall j | 0 <= j < |xs| :: HasTurn(raw, xs, memo, j))
    && (forall m | m in memo && m !in xs && Reaches(raw, m, xs) :: OverFallback(raw, memo, m))
  }

  ghost predicate HasTurn(raw: map<string, Bundle>, xs: seq<string>, memo: map<string, Bundle>, j: nat)
    requires j < |xs|
  {
    xs[j] in memo && memo[xs[j]] == Layered(raw, (xs + [xs[0]])[j..])
  }

  ghost predicate OverFallback(raw: map<string, Bundle>, memo: map<string, Bundle>, m: string)
    requires m in memo
  {
    && Next(raw, m).Some? && Next(raw, m).value in memo
    && memo[m] == memo[Next(raw, m).value] + Own(raw, m)
  }

  /** Resolving what does not reach the ring remembers nothing that does. */
  lemma {:induction false} PassesBy(raw: map<string, Bundle>, memo: map<string, Bundle>, resolving: set<string>,
                                    l: string,
                                    xs: seq<string>)
    requires !Reaches(raw, l, xs)
    ensures forall m | m in Resolved(raw, memo, resolving, l).1 && m !in memo :: !Reaches(raw, m, xs)
    decreases raw.Keys - resolving
  {
    if l in memo || l !in raw || Next(raw, l).None? || l in resolving {
    } else {
      var next := Next(raw, l).value;
      if Reaches(raw, next, xs) {
        ReachesOn(raw, l, next, xs);
      }
      PassesBy(raw, memo, resolving + {l}, next, xs);
    }
  }

  lemma {:induction false} Unrolled(raw: map<string, Bundle>, memo: map<string, Bundle>, resolving: set<string>,
                                    l: string)
    requires l !in memo && l !in resolving && Next(raw, l).Some?
    ensures var (b, memo') := Resolved(raw, memo, resolving + {l}, Next(raw, l).value);
            Resolved(raw, memo, resolving, l) == (b + Own(raw, l), memo'[l := b + Own(raw, l)])
  {
  }

  lemma {:induction false} TurnCloses(raw: map<string, Bundle>, memo: map<string, Bundle>, resolving: set<string>,
                                      l: string)
    requires l !in memo && l in resolving && l in raw
    ensures Resolved(raw, memo, resolving, l) == (Layered(raw, [l]), memo[l := Layered(raw, [l])])
  {
    assert [l][1..] == [];
    assert Layered(raw, []) + raw[l] == raw[l];
  }

  /** The turn round a ring, once it is under way. */
  lemma {:induction false} Turns(raw: map<string, Bundle>, memo: map<string, Bundle>, resolving: set<string>,
                                 xs: seq<string>, j: nat)
    requires IsRing(raw, xs) && 0 < j <= |xs| && forall x | x in xs :: x !in memo
    requires forall i | 0 <= i < |xs| :: xs[i] in resolving <==> i < j
    ensures var turn := xs + [xs[0]];
            var (b, memo') := Resolved(raw, memo, resolving, turn[j]);
            && b == Layered(raw, turn[j..])
            && (forall i | j <= i < |xs| :: xs[i] in memo' && memo'[xs[i]] == Layered(raw, turn[i..]))
            && (forall m | m in memo' && m !in memo :: m in xs)
    decreases |xs| - j
  {
    var turn := xs + [xs[0]];
    if j == |xs| {
      RingLink(raw, xs, 0);
      assert turn[j..] == [xs[0]];
      TurnCloses(raw, memo, resolving, xs[0]);
    } else {
      RingLink(raw, xs, j);
      Unrolled(raw, memo, resolving, xs[j]);
      Turns(raw, memo, resolving + {xs[j]}, xs, j + 1);
      assert turn[j..][1..] == turn[j + 1..];
    }
  }

  lemma {:induction false} TurnsWholly(raw: map<string, Bundle>, memo: map<string, Bundle>, resolving: set<string>,
                                       xs: seq<string>)
    requires IsRing(raw, xs) && forall x | x in xs :: x !in memo && x !in resolving
    ensures var memo' := Resolved(raw, memo, resolving, xs[0]).1;
            (forall j | 0 <= j < |xs| :: HasTurn(raw, xs, memo', j)) && forall m | m in memo' && m !in memo :: m in xs
  {
    var turn := xs + [xs[0]];
    RingLink(raw, xs, 0);
    Turns(raw, memo, resolving + {xs[0]}, xs, 1);
    Unrolled(raw, memo, resolving, xs[0]);
    InFront(raw, [xs[0]], turn[1..]);
    assert [xs[0]] + turn[1..] == turn == turn[0..] && [xs[0]][1..] + turn[1..] == turn[1..];
    var (inner, memo') := (Resolved(raw, memo, resolving + {xs[0]}, xs[1]).1, Resolved(raw, memo, resolving, xs[0]).1);
    forall j | 0 <= j < |xs| ensures HasTurn(raw, xs, memo', j) {
      assert j > 0 ==> xs[j] != xs[0] && xs[j] in inner && inner[xs[j]] == Layered(raw, turn[j..]);
    }
  }

  lemma {:induction false} TurnEnters(raw: map<string, Bundle>, memo: map<string, Bundle>, resolving: set<string>,
                                      xs: seq<string>)
    requires IsRing(raw, xs) && Untouched(raw, xs, memo) && forall x | x in xs :: x !in resolving
    ensures var memo' := Resolved(raw, memo, resolving, xs[0]).1;
            Entered(raw, xs, memo') && forall m | m in memo' && m !in memo :: m in xs
  {
    forall x | x in xs ensures x !in memo {
      MemberReaches(raw, x, xs);
    }
    TurnsWholly(raw, memo, resolving, xs);
  }

  /** Resolving what leads into the ring, when nothing reaching the ring was remembered yet and the way
      in ends at its first member, or when it was entered there before. */
  lemma {:induction false} Enters(raw: map<string, Bundle>, memo: map<string, Bundle>, resolving: set<string>,
                                  tail: seq<string>, xs: seq<string>, j: nat)
    requires IsRing(raw, xs) && LeadsInto(raw, tail, xs, j)
    requires (Untouched(raw, xs, memo) && j == 0) || Entered(raw, xs, memo)
    requires forall r | r in resolving :: r !in tail && r !in xs
    ensures var memo' := Resolved(raw, memo, resolving, Head(tail, xs[j])).1;
            Entered(raw, xs, memo') && forall m | m in memo' && m !in memo :: m in tail || m in xs
    decreases |tail|
  {
    var l := Head(tail, xs[j]);
    HeadReaches(raw, tail, xs, j);
    if l in memo {
      assert Entered(raw, xs, memo);
    } else if tail == [] {
      assert Entered(raw, xs, memo) ==> HasTurn(raw, xs, memo, j);
      TurnEnters(raw, memo, resolving, xs);
    } else {
      TailLink(raw, tail, xs, j);
      var next := Next(raw, l).value;
      Enters(raw, memo, resolving + {l}, tail[1..], xs, j);
      HeadReaches(raw, tail[1..], xs, j);
      NextOfRing(raw, tail[1..], xs, j);
      EntersBehind(raw, memo, resolving, l, xs);
      var (inner, memo') := (Resolved(raw, memo, resolving + {l}, next).1, Resolved(raw, memo, resolving, l).1);
      forall m | m in memo' && m !in memo ensures m in tail || m in xs {
        assert m == l || m in inner;
      }
    }
  }

  lemma {:induction false} EntersBehind(raw: map<string, Bundle>, memo: map<string, Bundle>, resolving: set<string>,
                                        l: string, xs: seq<string>)
    requires l !in memo && l !in resolving && Next(raw, l).Some? && Next(raw, l).value in raw
    requires var memo' := Resolved(raw, memo, resolving + {l}, Next(raw, l).value).1;
             Entered(raw, xs, memo') && l !in memo'
    ensures var memo' := Resolved(raw, memo, resolving, l).1;
            && Entered(raw, xs, memo')
            && memo'.Keys == Resolved(raw, memo, resolving + {l}, Next(raw, l).value).1.Keys + {l}
  {
    Remembers(raw, memo, resolving + {l}, Next(raw, l).value);
    Unrolled(raw, memo, resolving, l);
    AddedInFront(raw, xs, Resolved(raw, memo, resolving + {l}, Next(raw, l).value).1, l);
  }

  lemma {:induction false} HeadReaches(raw: map<string, Bundle>, tail: seq<string>, xs: seq<string>, j: nat)
    requires LeadsInto(raw, tail, xs, j)
    ensures Reaches(raw, Head(tail, xs[j]), xs)
  {
    var way := tail + [xs[j]];
    assert way[|way| - 1] in xs && way[0] == Head(tail, xs[j]);
  }

  lemma {:induction false} NextOfRing(raw: map<string, Bundle>, tail: seq<string>, xs: seq<string>, j: nat)
    requires IsRing(raw, xs) && LeadsInto(raw, tail, xs, j)
    ensures Head(tail, xs[j]) in raw
  {
    if tail == [] {
      RingLink(raw, xs, j);
    } else {
      TailLink(raw, tail, xs, j);
    }
  }

  lemma {:induction false} AddedInFront(raw: map<string, Bundle>, xs: seq<string>, memo: map<string, Bundle>, l: string)
    requires Entered(raw, xs, memo) && l !in memo && Next(raw, l).Some? && Next(raw, l).value in memo
    ensures Entered(raw, xs, memo[l := memo[Next(raw, l).value] + Own(raw, l)])
  {
    EnteredGrows(raw, xs, memo, memo[l := memo[Next(raw, l).value] + Own(raw, l)]);
  }

  lemma {:induction false} EnteredGrows(raw: map<string, Bundle>, xs: seq<string>, memo: map<string, Bundle>,
                                        memo': map<string, Bundle>)
    requires Entered(raw, xs, memo) && forall m | m in memo :: m in memo' && memo'[m] == memo[m]
    requires forall m | m in memo' && m !in memo && Reaches(raw, m, xs) :: OverFallback(raw, memo', m)
    ensures Entered(raw, xs, memo')
  {
    forall j | 0 <= j < |xs| ensures HasTurn(raw, xs, memo', j) {
      assert HasTurn(raw, xs, memo, j);
    }
    forall m | m in memo' && m !in xs && Reaches(raw, m, xs) ensures OverFallback(raw, memo', m) {
      if m in memo {
        assert OverFallback(raw, memo, m);
      }
    }
  }

  /** Once entered, always entered at the same member. */
  lemma {:induction false} StaysEntered(raw: map<string, Bundle>, memo: map<string, Bundle>, xs: seq<string>, l: string)
    requires IsRing(raw, xs) && Entered(raw, xs, memo)
    ensures Entered(raw, xs, Resolved(raw, memo, {}, l).1)
  {
    if Reaches(raw, l, xs) {
      var path: seq<string> :| path != [] && path[0] == l && path[|path| - 1] in xs && Links(raw, path);
      var tail, j := WayIn(raw, path, xs);
      Enters(raw, memo, {}, tail, xs, j);
    } else {
      PassesBy(raw, memo, {}, l, xs);
      Remembers(raw, memo, {}, l);
      EnteredGrows(raw, xs, memo, Resolved(raw, memo, {}, l).1);
    }
  }

  lemma {:induction false} AllPassBy(raw: map<string, Bundle>, xs: seq<string>, order: seq<string>)
    requires forall l | l in order :: !Reaches(raw, l, xs)
    ensures Untouched(raw, xs, ResolveAll(raw, order))
  {
    if order == [] {
    } else {
      var init, last := order[..|order| - 1], order[|order| - 1];
      AllPassBy(raw, xs, init);
      PassesBy(raw, ResolveAll(raw, init), {}, last, xs);
    }
  }

  /** Taken in this order, the first locale that reaches the ring is number `i`, by way of `way`, and
      enters it at its first member. */
  ghost predicate EntersAt(raw: map<string, Bundle>, order: seq<string>, i: nat, way: seq<string>, xs: seq<string>) {
    && i < |order| && LeadsInto(raw, way, xs, 0) && order[i] == Head(way, xs[0])
    && forall h | 0 <= h < i :: !Reaches(raw, order[h], xs)
  }

  lemma {:induction false} AllEntered(raw: map<string, Bundle>, order: seq<string>, i: nat, way: seq<string>,
                                      xs: seq<string>)
    requires IsRing(raw, xs) && EntersAt(raw, order, i, way, xs)
    ensures Entered(raw, xs, ResolveAll(raw, order))
    decreases |order|
  {
    var init, last := order[..|order| - 1], order[|order| - 1];
    if i == |order| - 1 {
      AllPassBy(raw, xs, init);
      Enters(raw, ResolveAll(raw, init), {}, way, xs, 0);
    } else {
      AllEntered(raw, init, i, way, xs);
      StaysEntered(raw, ResolveAll(raw, init), xs, last);
    }
  }

  lemma {:induction false} EnteredLayers(raw: map<string, Bundle>, memo: map<string, Bundle>, tail: seq<string>,
                                         xs: seq<string>, j: nat)
    requires IsRing(raw, xs) && LeadsInto(raw, tail, xs, j) && Entered(raw, xs, memo) && Head(tail, xs[j]) in memo
    ensures memo[Head(tail, xs[j])] == Layered(raw, tail + (xs + [xs[0]])[j..])
    decreases |tail|
  {
    var walk := (xs + [xs[0]])[j..];
    if tail == [] {
      assert HasTurn(raw, xs, memo, j);
      assert tail + walk == walk;
    } else {
      TailLink(raw, tail, xs, j);
      HeadReaches(raw, tail, xs, j);
      var next := Head(tail[1..], xs[j]);
      assert OverFallback(raw, memo, tail[0]);
      EnteredLayers(raw, memo, tail[1..], xs, j);
      InFront(raw, tail, walk);
    }
  }

  lemma {:induction false} InFront(raw: map<string, Bundle>, tail: seq<string>, walk: seq<string>)
    requires tail != []
    ensures Layered(raw, tail + walk) == Layered(raw, tail[1..] + walk) + Own(raw, tail[0])
  {
    assert (tail + walk)[1..] == tail[1..] + walk;
  }

  lemma {:induction false} TakenIsRemembered(raw: map<string, Bundle>, order: seq<string>, tail: seq<string>,
                                             xs: seq<string>, j: nat)
    requires IsRing(raw, xs) && LeadsInto(raw, tail, xs, j) && Head(tail, xs[j]) in order
    ensures Head(tail, xs[j]) in ResolveAll(raw, order)
  {
    ResolveAllIsSound(raw, order);
    NextOfRing(raw, tail, xs, j);
  }

  /** A locale in a ring, or leading into one, gets the layering of the walk from it to the member at
      which the order taken enters the ring first, a whole turn when its own walk meets that one first. */
  lemma {:induction false} RingIsWalkedToItsEntry(raw: map<string, Bundle>, order: seq<string>, i: nat,
                                                  way: seq<string>,
                                                  xs: seq<string>, tail: seq<string>, j: nat)
    requires IsRing(raw, xs) && EntersAt(raw, order, i, way, xs)
    requires LeadsInto(raw, tail, xs, j) && Head(tail, xs[j]) in order
    ensures var l := Head(tail, xs[j]);
            && l in ResolveAll(raw, order)
            && ResolveAll(raw, order)[l] == Layered(raw, tail + (xs + [xs[0]])[j..])
  {
    AllEntered(raw, order, i, way, xs);
    TakenIsRemembered(raw, order, tail, xs, j);
    EnteredLayers(raw, ResolveAll(raw, order), tail, xs, j);
  }

  // ---------- when the order matters ----------

  /** Every locale once, in some order. */
  ghost predicate Listing(raw: map<string, Bundle>, order: seq<string>) {
    Distinct(order) && forall l :: l in order <==> l in raw
  }

  ghost predicate SameInEveryOrder(raw: map<string, Bundle>, l: string) {
    forall order, other | Listing(raw, order) && Listing(raw, other) ::
      && l in ResolveAll(raw, order) && l in ResolveAll(raw, other)
      && ResolveAll(raw, order)[l] == ResolveAll(raw, other)[l]
  }

  lemma {:induction false} Listed(keys: set<string>) returns (order: seq<string>)
    ensures Distinct(order) && forall l :: l in order <==> l in keys
    decreases |keys|
  {
    order := [];
    if keys == {} {
    } else {
      var l :| l in keys;
      var rest := Listed(keys - {l});
      order := [l] + rest;
    }
  }

  lemma {:induction false} ListingFrom(raw: map<string, Bundle>, first: string) returns (order: seq<string>)
    requires first in raw
    ensures Listing(raw, order) && order[0] == first
  {
    var rest := Listed(raw.Keys - {first});
    order := [first] + rest;
  }

  function Turned(xs: seq<string>, k: nat): seq<string>
    requires k < |xs|
  {
    xs[k..] + xs[..k]
  }

  lemma {:induction false} TurnedIsRing(raw: map<string, Bundle>, xs: seq<string>, k: nat)
    requires IsRing(raw, xs) && k < |xs|
    ensures IsRing(raw, Turned(xs, k)) && forall l :: l in Turned(xs, k) <==> l in xs
  {
    var (ys, n) := (Turned(xs, k), |xs|);
    var turn := ys + [ys[0]];
    forall i | 0 <= i < |turn| - 1 ensures Next(raw, turn[i]) == Some(turn[i + 1]) {
      RingLink(raw, xs, if i + k < n then i + k else i + k - n);
    }
    TurnedHolds(xs, k);
  }

  lemma {:induction false} TurnedHolds(xs: seq<string>, k: nat)
    requires k < |xs|
    ensures forall l :: l in Turned(xs, k) <==> l in xs
    ensures Distinct(xs) ==> Distinct(Turned(xs, k))
  {
    assert xs == xs[..k] + xs[k..];
  }

  /** The walk from a locale to member number `k` of its ring, a whole turn if that is the nearest one. */
  function WalkTo(tail: seq<string>, xs: seq<string>, k: nat): seq<string>
    requires k < |xs|
  {
    tail + (if k == 0 then xs + [xs[0]] else xs[..k + 1])
  }

  /** The same, seen from the locale: whichever order is taken, the ring is entered at some member, and
      the locale's bundle is layered from the walk to that member. */
  lemma {:induction false} WalkedToSome(raw: map<string, Bundle>, order: seq<string>, i: nat, way: seq<string>, k: nat,
                                        tail: seq<string>, xs: seq<string>)
    requires IsRing(raw, xs) && LeadsInto(raw, tail, xs, 0) && Head(tail, xs[0]) in order
    requires k < |xs| && LeadsInto(raw, way, xs, k) && i < |order| && order[i] == Head(way, xs[k])
    requires forall h | 0 <= h < i :: !Reaches(raw, order[h], xs)
    ensures var l := Head(tail, xs[0]);
            l in ResolveAll(raw, order) && ResolveAll(raw, order)[l] == Layered(raw, WalkTo(tail, xs, k))
  {
    var (ys, j) := (Turned(xs, k), if k == 0 then 0 else |xs| - k);
    TurnedIsRing(raw, xs, k);
    SameWayIn(raw, way, xs, k, ys, 0);
    SameWayIn(raw, tail, xs, 0, ys, j);
    assert EntersAt(raw, order, i, way, ys);
    RingIsWalkedToItsEntry(raw, order, i, way, ys, tail, j);
    TurnedWalk(tail, xs, k);
  }

  lemma {:induction false} SameWayIn(raw: map<string, Bundle>, tail: seq<string>, xs: seq<string>, i: nat,
                                     ys: seq<string>, j: nat)
    requires LeadsInto(raw, tail, xs, i) && j < |ys| && ys[j] == xs[i] && forall l :: l in ys <==> l in xs
    ensures LeadsInto(raw, tail, ys, j)
  {
  }

  lemma {:induction false} TurnedWalk(tail: seq<string>, xs: seq<string>, k: nat)
    requires k < |xs|
    ensures var (ys, j) := (Turned(xs, k), if k == 0 then 0 else |xs| - k);
            tail + (ys + [ys[0]])[j..] == WalkTo(tail, xs, k)
  {
    var (ys, j) := (Turned(xs, k), if k == 0 then 0 else |xs| - k);
    assert (ys + [ys[0]])[j..] == if k == 0 then xs + [xs[0]] else xs[..k + 1];
  }

  lemma {:induction false} MergesAssociate(a: Bundle, b: Bundle, c: Bundle)
    ensures a + b + c == a + (b + c)
  {
  }

  lemma {:induction false} LayeredOver(raw: map<string, Bundle>, a: seq<string>, b: seq<string>)
    ensures Layered(raw, a + b) == Layered(raw, b) + Layered(raw, a)
  {
    if a == [] {
      assert a + b == b;
    } else {
      LayeredOver(raw, a[1..], b);
      InFront(raw, a, b);
      assert a + [] == a && a[1..] + [] == a[1..];
      MergesAssociate(Layered(raw, b), Layered(raw, a[1..]), Own(raw, a[0]));
    }
  }

  lemma {:induction false} LayeredKeys(raw: map<string, Bundle>, walk: seq<string>, k: string)
    ensures k in Layered(raw, walk) <==> exists l :: l in walk && k in Own(raw, l)
  {
    if walk == [] {
    } else {
      LayeredKeys(raw, walk[1..], k);
      assert forall l :: l in walk <==> l == walk[0] || l in walk[1..];
    }
  }

  /** What the locale gets in the order that serves it least already holds every section of the ring. */
  ghost predicate NothingMissed(raw: map<string, Bundle>, tail: seq<string>, xs: seq<string>)
    requires |xs| >= 2
  {
    forall x, k | x in xs && k in Own(raw, x) :: exists l :: l in tail + xs[..2] && k in Own(raw, l)
  }

  lemma {:induction false} LongerWalkAddsNothing(raw: map<string, Bundle>, tail: seq<string>, xs: seq<string>,
                                                 rest: seq<string>)
    requires |xs| >= 2 && NothingMissed(raw, tail, xs) && forall l | l in rest :: l in xs
    ensures Layered(raw, tail + xs[..2] + rest) == Layered(raw, tail + xs[..2])
  {
    var near := tail + xs[..2];
    LayeredOver(raw, near, rest);
    forall k | k in Layered(raw, rest) ensures k in Layered(raw, near) {
      LayeredKeys(raw, rest, k);
      LayeredKeys(raw, near, k);
      var x :| x in rest && k in Own(raw, x);
      assert x in xs;
    }
  }

  lemma {:induction false} AnyOrderEnters(raw: map<string, Bundle>, order: seq<string>, tail: seq<string>,
                                          xs: seq<string>)
      returns (k: nat)
    requires IsRing(raw, xs) && LeadsInto(raw, tail, xs, 0) && Head(tail, xs[0]) in order
    ensures var l := Head(tail, xs[0]);
            k < |xs| && l in ResolveAll(raw, order) && ResolveAll(raw, order)[l] == Layered(raw, WalkTo(tail, xs, k))
  {
    HeadReaches(raw, tail, xs, 0);
    var m: nat :| m < |order| && order[m] == Head(tail, xs[0]);
    var i := FirstToReach(raw, order, xs, m);
    var path: seq<string> :| path != [] && path[0] == order[i] && path[|path| - 1] in xs && Links(raw, path);
    var way;
    way, k := WayIn(raw, path, xs);
    WalkedToSome(raw, order, i, way, k, tail, xs);
  }

  /** Whichever order is taken, nothing missed means the layering of the shortest walk. */
  lemma {:induction false} ShortWalkSuffices(raw: map<string, Bundle>, order: seq<string>, tail: seq<string>,
                                             xs: seq<string>)
    requires IsRing(raw, xs) && LeadsInto(raw, tail, xs, 0) && Head(tail, xs[0]) in order
    requires NothingMissed(raw, tail, xs)
    ensures var l := Head(tail, xs[0]);
            l in ResolveAll(raw, order) && ResolveAll(raw, order)[l] == Layered(raw, tail + xs[..2])
  {
    var k := AnyOrderEnters(raw, order, tail, xs);
    EveryWalkSuffices(raw, tail, xs, k);
  }

  lemma {:induction false} EveryWalkSuffices(raw: map<string, Bundle>, tail: seq<string>, xs: seq<string>, k: nat)
    requires |xs| >= 2 && k < |xs| && NothingMissed(raw, tail, xs)
    ensures Layered(raw, WalkTo(tail, xs, k)) == Layered(raw, tail + xs[..2])
  {
    var rest := if k == 0 then xs[2..] + [xs[0]] else xs[2..k + 1];
    assert WalkTo(tail, xs, k) == tail + xs[..2] + rest;
    LongerWalkAddsNothing(raw, tail, xs, rest);
  }

  lemma {:induction false} ShortestWalkHoldsAll(raw: map<string, Bundle>, tail: seq<string>, xs: seq<string>)
    requires |xs| >= 2 && Layered(raw, WalkTo(tail, xs, 1)) == Layered(raw, WalkTo(tail, xs, 0))
    ensures NothingMissed(raw, tail, xs)
  {
    forall x, k | x in xs && k in Own(raw, x) ensures exists l :: l in tail + xs[..2] && k in Own(raw, l) {
      LayeredKeys(raw, WalkTo(tail, xs, 0), k);
      LayeredKeys(raw, WalkTo(tail, xs, 1), k);
      assert x in WalkTo(tail, xs, 0);
    }
  }

  lemma {:induction false} FirstToReach(raw: map<string, Bundle>, order: seq<string>, xs: seq<string>, m: nat)
      returns (i: nat)
    requires m < |order| && Reaches(raw, order[m], xs)
    ensures i <= m && Reaches(raw, order[i], xs) && forall h | 0 <= h < i :: !Reaches(raw, order[h], xs)
  {
    i := m;
    if h: nat :| h < m && Reaches(raw, order[h], xs) {
      i := FirstToReach(raw, order, xs, h);
    }
  }

  /** Taken first, the member after the nearest one leaves the locale the shortest walk, the nearest
      one itself a whole turn. */
  lemma {:induction false} OrdersDiffer(raw: map<string, Bundle>, tail: seq<string>, xs: seq<string>)
    requires IsRing(raw, xs) && LeadsInto(raw, tail, xs, 0) && SameInEveryOrder(raw, Head(tail, xs[0]))
    ensures NothingMissed(raw, tail, xs)
  {
    NextOfRing(raw, tail, xs, 0);
    RingLink(raw, xs, 0);
    RingLink(raw, xs, 1);
    var near := ListingFrom(raw, xs[1]);
    var far := ListingFrom(raw, xs[0]);
    WalkedToSome(raw, near, 0, [], 1, tail, xs);
    WalkedToSome(raw, far, 0, [], 0, tail, xs);
    ShortestWalkHoldsAll(raw, tail, xs);
  }

  /** The bundle of a locale in a ring, or leading into one, is the same in every order exactly when no
      section of the ring is missing from the locale, its way into the ring, and the first two members. */
  lemma {:induction false} WhenRingOrderMatters(raw: map<string, Bundle>, tail: seq<string>, xs: seq<string>)
    requires IsRing(raw, xs) && LeadsInto(raw, tail, xs, 0)
    ensures SameInEveryOrder(raw, Head(tail, xs[0])) <==> NothingMissed(raw, tail, xs)
  {
    var l := Head(tail, xs[0]);
    if SameInEveryOrder(raw, l) {
      OrdersDiffer(raw, tail, xs);
    } else if NothingMissed(raw, tail, xs) {
      NextOfRing(raw, tail, xs, 0);
      forall order | Listing(raw, order)
        ensures l in ResolveAll(raw, order) && ResolveAll(raw, order)[l] == Layered(raw, tail + xs[..2])
      {
        ShortWalkSuffices(raw, order, tail, xs);
      }
      assert false;
    }
  }

  function Unseen(raw: map<string, Bundle>, path: seq<string>): set<string> {
    set l | l in raw && l !in path
  }

  /** Every fallback walk ends or comes into a ring. */
  lemma {:induction false} EndsOrTurns(raw: map<string, Bundle>, path: seq<string>)
      returns (tail: seq<string>, xs: seq<string>)
    requires path != [] && Distinct(path) && Links(raw, path) && forall l | l in path :: l in raw
    ensures tail + xs != [] && (tail + xs)[0] == path[0]
    ensures if xs == [] then Chain(raw, tail) else IsRing(raw, xs) && LeadsInto(raw, tail, xs, 0)
    decreases Unseen(raw, path)
  {
    var last := path[|path| - 1];
    if Next(raw, last).None? {
      tail, xs := path, [];
      EndsHere(raw, path);
    } else {
      var next := Next(raw, last).value;
      if next in path {
        var m :| 0 <= m < |path| && path[m] == next;
        tail, xs := path[..m], path[m..];
        assert tail + xs == path;
        CutAt(raw, path, m);
      } else {
        WalkGrows(raw, path, next);
        tail, xs := EndsOrTurns(raw, path + [next]);
      }
    }
  }

  lemma {:induction false} WalkGrows(raw: map<string, Bundle>, path: seq<string>, next: string)
    requires path != [] && Distinct(path) && Links(raw, path) && forall l | l in path :: l in raw
    requires Next(raw, path[|path| - 1]) == Some(next) && next !in path
    ensures Distinct(path + [next]) && Links(raw, path + [next])
    ensures forall l | l in path + [next] :: l in raw
    ensures Unseen(raw, path + [next]) < Unseen(raw, path)
  {
    assert next in Unseen(raw, path) && next !in Unseen(raw, path + [next]);
  }

  lemma {:induction false} EndsHere(raw: map<string, Bundle>, path: seq<string>)
    requires path != [] && path[0] in raw && Links(raw, path) && Next(raw, path[|path| - 1]).None?
    ensures Chain(raw, path)
  {
  }

  lemma {:induction false} CutAt(raw: map<string, Bundle>, path: seq<string>, m: nat)
    requires m < |path| && Distinct(path) && Links(raw, path) && Next(raw, path[|path| - 1]) == Some(path[m])
    ensures IsRing(raw, path[m..]) && LeadsInto(raw, path[..m], path[m..], 0)
  {
    var (tail, xs) := (path[..m], path[m..]);
    var turn := xs + [xs[0]];
    forall i | 0 <= i < |turn| - 1 ensures Next(raw, turn[i]) == Some(turn[i + 1]) {
      assert i < |xs| - 1 ==> Next(raw, path[m + i]) == Some(path[m + i + 1]);
    }
    var way := tail + [xs[0]];
    forall i | 0 <= i < |way| - 1 ensures Next(raw, way[i]) == Some(way[i + 1]) {
      assert Next(raw, path[i]) == Some(path[i + 1]);
    }
  }

  /** The same for any locale: if its fallbacks end there is no ring to satisfy the condition for. */
  lemma {:induction false} WhenOrderMatters(raw: map<string, Bundle>, l: string)
    requires l in raw
    ensures SameInEveryOrder(raw, l) <==>
              forall tail, xs | IsRing(raw, xs) && LeadsInto(raw, tail, xs, 0) && Head(tail, xs[0]) == l ::
                NothingMissed(raw, tail, xs)
  {
    var tail, xs := EndsOrTurns(raw, [l]);
    if xs == [] {
      ChainHasOneBundle(raw, tail);
      forall way, ring | IsRing(raw, ring) && LeadsInto(raw, way, ring, 0) && Head(way, ring[0]) == l
        ensures NothingMissed(raw, way, ring)
      {
        WhenRingOrderMatters(raw, way, ring);
      }
    } else {
      forall way, ring | IsRing(raw, ring) && LeadsInto(raw, way, ring, 0) && Head(way, ring[0]) == l
        ensures NothingMissed(raw, way, ring) <==> SameInEveryOrder(raw, l)
      {
        WhenRingOrderMatters(raw, way, ring);
      }
      assert Head(tail, xs[0]) == (tail + xs)[0];
    }
  }

  lemma {:induction false} ChainHasOneBundle(raw: map<string, Bundle>, c: seq<string>)
    requires Chain(raw, c)
    ensures SameInEveryOrder(raw, c[0])
  {
    forall order, other | Listing(raw, order) && Listing(raw, other)
      ensures c[0] in ResolveAll(raw, order) && c[0] in ResolveAll(raw, other)
      ensures ResolveAll(raw, order)[c[0]] == ResolveAll(raw, other)[c[0]]
    {
      OrderDoesNotMatter(raw, order, other, c);
    }
  }

  function Ring(): map<string, Bundle> {
    map["a" := map["_meta" := map["fallback" := "b"], "a" := map[]],
        "b" := map["_meta" := map["fallback" := "c"], "b" := map[]],
        "c" := map["_meta" := map["fallback" := "a"], "c" := map[]]]
  }

  lemma {:induction false} RingIsRing()
    ensures IsRing(Ring(), ["c", "a", "b"])
  {
    var (r, xs) := (Ring(), ["c", "a", "b"]);
    assert Next(r, "a") == Some("b") && Next(r, "b") == Some("c") && Next(r, "c") == Some("a");
    assert xs + [xs[0]] == ["c", "a", "b", "c"];
  }

  /** Of three locales falling back on each other in a ring, "c" has the strings of "b" in some orders
      and lacks them in others. */
  lemma {:induction false} RingDependsOnOrder()
    ensures !SameInEveryOrder(Ring(), "c")
  {
    var xs := ["c", "a", "b"];
    RingIsRing();
    RingMissesB();
    WhenRingOrderMatters(Ring(), [], xs);
  }

  lemma {:induction false} RingMissesB()
    ensures var xs := ["c", "a", "b"]; LeadsInto(Ring(), [], xs, 0) && !NothingMissed(Ring(), [], xs)
  {
    var xs := ["c", "a", "b"];
    assert [] + xs[..2] == ["c", "a"];
    assert xs[2] in xs && "b" in Own(Ring(), xs[2]);
  }

  /** Two locales falling back on each other have the same bundles in every order. */
  lemma {:induction false} PairNeverDepends(raw: map<string, Bundle>, a: string, b: string)
    requires Next(raw, a) == Some(b) && Next(raw, b) == Some(a)
    ensures SameInEveryOrder(raw, a)
  {
    var xs := [a, b];
    assert xs + [xs[0]] == [a, b, a];
    assert [] + xs[..2] == xs;
    WhenRingOrderMatters(raw, [], xs);
  }

  // ---------- the code ----------

  lemma {:induction false} TakesNext(raw: map<string, Bundle>, order: seq<string>, i: nat)
    requires i < |order| && order[i] in raw && ResolveAll(raw, order[..i]).Keys <= raw.Keys
    ensures var (memo, memo') := (ResolveAll(raw, order[..i]), ResolveAll(raw, order[..i + 1]));
            && (Resolved(raw, memo, {}, order[i]).1 == memo')
            && (forall m | m in memo :: m in memo' && memo'[m] == memo[m])
            && order[i] in memo' && memo'[order[i]] == Resolved(raw, memo, {}, order[i]).0
            && memo'.Keys <= raw.Keys
    ensures forall l :: l in order[..i + 1] <==> l in order[..i] || l == order[i]
  {
    assert order[..i + 1][..i] == order[..i] && order[..i + 1] == order[..i] + [order[i]];
    Remembers(raw, ResolveAll(raw, order[..i]), {}, order[i]);
  }

  class Assembler {
    const raw: map<string, Bundle>
    var resolved: map<string, Bundle>
    var resolving: set<string>

    constructor (raw: map<string, Bundle>)
      ensures this.raw == raw && resolved == map[] && resolving == {}
    {
      this.raw, resolved, resolving := raw, map[], {};
    }

    method Resolve(locale: string) returns (bundle: Bundle)
      modifies this
      ensures resolving == old(resolving)
      ensures (bundle, resolved) == Resolved(raw, old(resolved), old(resolving), locale)
      decreases raw.Keys - resolving
    {
      if locale in resolved {
        return resolved[locale];
      }
      if locale !in raw {
        return map[];
      }
      bundle := raw[locale];
      var fallback := Next(raw, locale);
      if fallback.None? || locale in resolving {
        resolved := resolved[locale := bundle];
        return;
      }
      var was := resolving;
      resolving := resolving + {locale};
      var behind := Resolve(fallback.value);
      resolving := was;
      bundle := behind + bundle;
      resolved := resolved[locale := bundle];
    }
  }

  /** The bundles of all locales, resolved in the order given. */
  method AssembleLocales(files: seq<File>, order: seq<string>) returns (locales: map<string, Bundle>)
    requires forall l :: l in order <==> l in Merged(files)
    ensures locales.Keys == Merged(files).Keys
    ensures locales == ResolveAll(Merged(files), order)
  {
    var raw: map<string, Bundle> := map[];
    for i := 0 to |files|
      invariant raw == Merged(files[..i])
    {
      assert files[..i + 1][..i] == files[..i];
      raw := Added(raw, files[i]);
    }
    assert files[..|files|] == files;
    var assembler := new Assembler(raw);
    locales := map[];
    for i := 0 to |order|
      invariant assembler.raw == raw && assembler.resolving == {} && fresh(assembler)
      invariant assembler.resolved == ResolveAll(raw, order[..i]) && assembler.resolved.Keys <= raw.Keys
      invariant forall l :: l in locales <==> l in order[..i]
      invariant forall l | l in locales :: l in assembler.resolved && locales[l] == assembler.resolved[l]
    {
      TakesNext(raw, order, i);
      var bundle := assembler.Resolve(order[i]);
      locales := locales[order[i] := bundle];
    }
    assert order[..|order|] == order;
  }
}
