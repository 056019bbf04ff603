/** Reading the Cache-Control response directives. */
module CacheControl {
  import opened Http
  import opened Text

  datatype Directives = Directives(
    immutable: bool,
    maxAge: int,
    mustRevalidate: bool,
    mustUnderstand: bool,
    noCache: bool,
    noStore: bool,
    noTransform: bool,
    private_: bool,
    proxyRevalidate: bool,
    public: bool,
    sMaxAge: int,
    staleWhileRevalidate: int,
    staleIfError: int
  )

  const NO_DIRECTIVES := Directives(false, 0, false, false, false, false, false, false, false, false, 0, 0, 0)

  datatype Reading = Reading(directives: Directives, ok: bool)

  /** The directive names the parser knows; every other spelling stands for itself. */
  datatype Name =
    | Immutable | MaxAge | MustRevalidate | MustUnderstand | NoCache | NoStore | NoTransform
    | Private | ProxyRevalidate | Public | SMaxAge | StaleWhileRevalidate | StaleIfError
    | Unknown(spelling: string)

  function Classify(key: string): Name {
    match key
    case "immutable" => Immutable
    case "max-age" => MaxAge
    case "must-revalidate" => MustRevalidate
    case "must-understand" => MustUnderstand
    case "no-cache" => NoCache
    case "no-store" => NoStore
    case "no-transform" => NoTransform
    case "private" => Private
    case "proxy-revalidate" => ProxyRevalidate
    case "public" => Public
    case "s-maxage" => SMaxAge
    case "stale-while-revalidate" => StaleWhileRevalidate
    case "stale-if-error" => StaleIfError
    case _ => Unknown(key)
  }

  /** One comma-separated element: the text around its first '='. */
  datatype Token = Token(name: Name, val: string, found: bool)

  function Cut(s: string): (string, string, bool) {
    if s == "" then ("", "", false)
    else if s[0] == '=' then ("", s[1..], true)
    else
      var (key, val, found) := Cut(s[1..]);
      if found then ([s[0]] + key, val, true) else (s, "", false)
  }

  function ToToken(part: string): Token {
    var (key, val, found) := Cut(TrimSpace(part));
    Token(Classify(key), val, found)
  }

  function TokensOf(parts: seq<string>): (ts: seq<Token>)
    ensures |ts| == |parts|
    ensures forall i :: 0 <= i < |parts| ==> ts[i] == ToToken(parts[i])
  {
    seq(|parts|, i requires 0 <= i < |parts| => ToToken(parts[i]))
  }

  function LineTokens(line: string): seq<Token> {
    TokensOf(Split(line))
  }

  /** All the elements of all the field lines, in order. */
  function Tokens(lines: seq<string>): seq<Token> {
    if lines == [] then [] else LineTokens(lines[0]) + Tokens(lines[1..])
  }

  /* ---- What the elements mean: the first occurrence of a name decides ---- */

  function FirstOf(ts: seq<Token>, name: Name): Option<Token> {
    if ts == [] then None
    else if ts[0].name == name then Some(ts[0])
    else FirstOf(ts[1..], name)
  }

  predicate Flag(ts: seq<Token>, name: Name) {
    FirstOf(ts, name).Some? && !FirstOf(ts, name).value.found
  }

  function Seconds(val: string): int {
    Wrap(Atoi(val).value * SECOND)
  }

  function Duration(ts: seq<Token>, name: Name): int {
    if FirstOf(ts, name).Some? && FirstOf(ts, name).value.found then Seconds(FirstOf(ts, name).value.val) else 0
  }

  function Meaning(ts: seq<Token>): Directives {
    Directives(
      immutable := Flag(ts, Immutable),
      maxAge := Duration(ts, MaxAge),
      mustRevalidate := Flag(ts, MustRevalidate),
      mustUnderstand := Flag(ts, MustUnderstand),
      noCache := FirstOf(ts, NoCache).Some?,
      noStore := Flag(ts, NoStore),
      noTransform := Flag(ts, NoTransform),
      private_ := FirstOf(ts, Private).Some?,
      proxyRevalidate := Flag(ts, ProxyRevalidate),
      public := Flag(ts, Public),
      sMaxAge := Duration(ts, SMaxAge),
      staleWhileRevalidate := Duration(ts, StaleWhileRevalidate),
      staleIfError := Duration(ts, StaleIfError))
  }

  predicate Numeric(name: Name) {
    name.MaxAge? || name.SMaxAge? || name.StaleWhileRevalidate? || name.StaleIfError?
  }

  /** A number that does not parse. */
  predicate Malformed(t: Token) {
    t.found && Numeric(t.name) && !Atoi(t.val).ok
  }

  /** Element i is malformed and the first of its name. */
  predicate BadAt(ts: seq<Token>, i: nat)
    requires i < |ts|
  {
    Malformed(ts[i]) && FirstOf(ts[..i], ts[i].name).None?
  }

  /** Where reading stops: the first bad element, or the end. */
  function StopFrom(ts: seq<Token>, i: nat): (n: nat)
    requires i <= |ts|
    ensures i <= n <= |ts|
    ensures forall j: nat :: i <= j < n ==> !BadAt(ts, j)
    ensures n < |ts| ==> BadAt(ts, n)
    decreases |ts| - i
  {
    if i == |ts| || BadAt(ts, i) then i else StopFrom(ts, i + 1)
  }

  function Interpret(ts: seq<Token>): Reading {
    var n := StopFrom(ts, 0);
    Reading(Meaning(ts[..n]), n == |ts|)
  }

  /** What the rest of the proxy reads from a Cache-Control field. */
  function Read(lines: seq<string>): Reading {
    Interpret(Tokens(lines))
  }

  /* ---- Lemmas ---- */

  lemma {:induction false} FirstOfAppend(ts: seq<Token>, t: Token, name: Name)
    ensures FirstOf(ts + [t], name) ==
            if FirstOf(ts, name).Some? then FirstOf(ts, name)
            else if t.name == name then Some(t) else None
  {
    if ts != [] {
      assert (ts + [t])[1..] == ts[1..] + [t];
      FirstOfAppend(ts[1..], t, name);
    }
  }

  /** A prefix with no bad element followed by a bad one fixes the reading, whatever comes after. */
  lemma StopsAt(ts: seq<Token>, n: nat)
    requires n <= |ts|
    requires forall j: nat :: j < n ==> !BadAt(ts, j)
    requires n < |ts| ==> BadAt(ts, n)
    ensures StopFrom(ts, 0) == n
  {
  }

  lemma {:induction false} TokensAppend(a: seq<string>, b: seq<string>)
    ensures Tokens(a + b) == Tokens(a) + Tokens(b)
  {
    if a == [] {
      assert a + b == b;
    } else {
      var ab := a + b;
      assert ab[0] == a[0] && ab[1..] == a[1..] + b;
      calc {
        Tokens(ab);
        LineTokens(a[0]) + Tokens(a[1..] + b);
        { TokensAppend(a[1..], b); }
        LineTokens(a[0]) + (Tokens(a[1..]) + Tokens(b));
        (LineTokens(a[0]) + Tokens(a[1..])) + Tokens(b);
      }
    }
  }

  lemma TokensOne(line: string)
    ensures Tokens([line]) == LineTokens(line)
  {
    assert Tokens([line]) == LineTokens(line) + [];
  }

  lemma TokensPrefix(header: seq<string>, i: nat)
    requires i < |header|
    ensures Tokens(header[..i + 1]) == Tokens(header[..i]) + LineTokens(header[i])
    ensures Tokens(header) == Tokens(header[..i + 1]) + Tokens(header[i + 1..])
  {
    hide Tokens, LineTokens;
    TokensOneMore(header, i);
    TokensSplit(header, i + 1);
  }

  lemma TokensOneMore(header: seq<string>, i: nat)
    requires i < |header|
    ensures Tokens(header[..i + 1]) == Tokens(header[..i]) + LineTokens(header[i])
  {
    hide Tokens, LineTokens;
    assert header[..i + 1] == header[..i] + [header[i]];
    TokensAppend(header[..i], [header[i]]);
    TokensOne(header[i]);
  }

  lemma TokensSplit(header: seq<string>, i: nat)
    requires i <= |header|
    ensures Tokens(header) == Tokens(header[..i]) + Tokens(header[i..])
  {
    hide Tokens;
    assert header == header[..i] + header[i..];
    TokensAppend(header[..i], header[i..]);
  }

  /** Section 5.3 of RFC 9110 for two field lines. */
  lemma TwoLines(a: string, b: string)
    ensures Tokens([a + "," + b]) == Tokens([a]) + Tokens([b])
  {
    hide ToToken, Split;
    TokensOne(a + "," + b);
    TokensOne(a);
    TokensOne(b);
    SplitOfComma(a, b);
    var x, y := Split(a), Split(b);
    assert TokensOf(x + y) == TokensOf(x) + TokensOf(y);
  }

  lemma LeadingSpace(b: string)
    ensures Tokens([" " + b]) == Tokens([b])
  {
    TokensOne(" " + b);
    TokensOne(b);
    SplitOfSpace(b);
    TrimOfSpace(Split(b)[0]);
    var y, z := Split(b), Split(" " + b);
    forall i | 0 <= i < |y|
      ensures TokensOf(y)[i] == TokensOf(z)[i]
    {
      assert i > 0 ==> z[i] == y[i];
    }
  }

  /** Section 5.3 of RFC 9110: joining the field lines changes neither the directives nor the verdict. */
  lemma {:induction false} JoiningLines(lines: seq<string>, sep: string)
    requires lines != []
    requires sep == "," || sep == ", "
    ensures Tokens([Join(lines, sep)]) == Tokens(lines)
    ensures Read([Join(lines, sep)]) == Read(lines)
  {
    if |lines| == 1 {
      assert lines == [lines[0]];
    } else {
      var rest := Join(lines[1..], sep);
      assert [lines[0]] + lines[1..] == lines;
      calc {
        Tokens(lines);
        { TokensAppend([lines[0]], lines[1..]); }
        Tokens([lines[0]]) + Tokens(lines[1..]);
        { JoiningLines(lines[1..], sep); }
        Tokens([lines[0]]) + Tokens([rest]);
        { JoinPair(lines[0], rest, sep); }
        Tokens([lines[0] + sep + rest]);
      }
    }
  }

  lemma JoinPair(a: string, b: string, sep: string)
    requires sep == "," || sep == ", "
    ensures Tokens([a + sep + b]) == Tokens([a]) + Tokens([b])
  {
    if sep == "," {
      TwoLines(a, b);
    } else {
      TwoLines(a, " " + b);
      LeadingSpace(b);
      assert a + sep + b == a + "," + (" " + b);
    }
  }

  /* ---- The parser ---- */

  /** The first n elements have been read without meeting a bad one. */
  ghost predicate Progress(all: seq<Token>, n: nat, cc: Directives, seen: set<Name>) {
    && n <= |all|
    && cc == Meaning(all[..n])
    && (forall k :: k in seen <==> FirstOf(all[..n], k).Some?)
    && (forall j: nat :: j < n ==> !BadAt(all, j))
  }

  lemma Begin(all: seq<Token>)
    ensures Progress(all, 0, NO_DIRECTIVES, {})
  {
  }

  lemma Finish(all: seq<Token>, cc: Directives, seen: set<Name>)
    requires Progress(all, |all|, cc, seen)
    ensures Interpret(all) == Reading(cc, true)
  {
    assert all[..|all|] == all;
    StopsAt(all, |all|);
  }

  lemma Fail(all: seq<Token>, n: nat, cc: Directives, seen: set<Name>)
    requires Progress(all, n, cc, seen)
    requires n < |all| && Malformed(all[n]) && all[n].name !in seen
    ensures Interpret(all) == Reading(cc, false)
  {
    assert BadAt(all, n);
    StopsAt(all, n);
  }

  /** Reading one more element that is not bad. */
  lemma Advance(all: seq<Token>, n: nat, cc: Directives, seen: set<Name>)
    requires Progress(all, n, cc, seen)
    requires n < |all|
    requires all[n].name !in seen ==> !Malformed(all[n])
    ensures Progress(all, n + 1,
                     if all[n].name in seen then cc else Update(cc, all[n]), seen + {all[n].name})
  {
    hide FirstOf, Meaning, Update, Malformed;
    assert all[..n + 1] == all[..n] + [all[n]];
    if all[n].name in seen {
      MeaningRepeat(all[..n], all[n]);
    } else {
      MeaningAppend(all[..n], all[n]);
    }
    FirstOfAppendAll(all[..n], all[n]);
    assert !BadAt(all, n);
  }

  lemma FirstOfAppendAll(ts: seq<Token>, t: Token)
    ensures forall k :: FirstOf(ts + [t], k) ==
                        if FirstOf(ts, k).Some? then FirstOf(ts, k)
                        else if t.name == k then Some(t) else None
  {
    forall k {
      FirstOfAppend(ts, t, k);
    }
  }

  lemma ReadOneMore(ts: seq<Token>, t: Token, name: Name)
    requires FirstOf(ts, t.name).None?
    ensures FirstOf(ts + [t], name).Some? == (FirstOf(ts, name).Some? || t.name == name)
    ensures Flag(ts + [t], name) == (Flag(ts, name) || (t.name == name && !t.found))
    ensures Duration(ts + [t], name) ==
            if t.name == name && t.found then Seconds(t.val) else Duration(ts, name)
  {
    FirstOfAppend(ts, t, name);
  }

  lemma MeaningOneMore(ts: seq<Token>, t: Token)
    requires FirstOf(ts, t.name).None?
    ensures Meaning(ts + [t]) == Directives(
      immutable := Flag(ts, Immutable) || (t.name.Immutable? && !t.found),
      maxAge := if t.name.MaxAge? && t.found then Seconds(t.val) else Duration(ts, MaxAge),
      mustRevalidate := Flag(ts, MustRevalidate) || (t.name.MustRevalidate? && !t.found),
      mustUnderstand := Flag(ts, MustUnderstand) || (t.name.MustUnderstand? && !t.found),
      noCache := FirstOf(ts, NoCache).Some? || t.name.NoCache?,
      noStore := Flag(ts, NoStore) || (t.name.NoStore? && !t.found),
      noTransform := Flag(ts, NoTransform) || (t.name.NoTransform? && !t.found),
      private_ := FirstOf(ts, Private).Some? || t.name.Private?,
      proxyRevalidate := Flag(ts, ProxyRevalidate) || (t.name.ProxyRevalidate? && !t.found),
      public := Flag(ts, Public) || (t.name.Public? && !t.found),
      sMaxAge := if t.name.SMaxAge? && t.found then Seconds(t.val) else Duration(ts, SMaxAge),
      staleWhileRevalidate :=
        if t.name.StaleWhileRevalidate? && t.found then Seconds(t.val) else Duration(ts, StaleWhileRevalidate),
      staleIfError := if t.name.StaleIfError? && t.found then Seconds(t.val) else Duration(ts, StaleIfError))
  {
    hide FirstOf, Seconds, Flag, Duration;
    forall name {
      ReadOneMore(ts, t, name);
    }
  }

  lemma ArgumentFields(cc: Directives, name: Name, val: string)
    ensures SetArgument(cc, name, val) == cc.(
      maxAge := if name.MaxAge? then Seconds(val) else cc.maxAge,
      noCache := cc.noCache || name.NoCache?,
      private_ := cc.private_ || name.Private?,
      sMaxAge := if name.SMaxAge? then Seconds(val) else cc.sMaxAge,
      staleWhileRevalidate := if name.StaleWhileRevalidate? then Seconds(val) else cc.staleWhileRevalidate,
      staleIfError := if name.StaleIfError? then Seconds(val) else cc.staleIfError)
  {
    hide Seconds;
  }

  lemma FlagFields(cc: Directives, name: Name)
    ensures SetFlag(cc, name) == cc.(
      mustRevalidate := cc.mustRevalidate || name.MustRevalidate?,
      mustUnderstand := cc.mustUnderstand || name.MustUnderstand?,
      noCache := cc.noCache || name.NoCache?,
      noStore := cc.noStore || name.NoStore?,
      noTransform := cc.noTransform || name.NoTransform?,
      private_ := cc.private_ || name.Private?,
      proxyRevalidate := cc.proxyRevalidate || name.ProxyRevalidate?,
      public := cc.public || name.Public?,
      immutable := cc.immutable || name.Immutable?)
  {
  }

  lemma MeaningAppend(ts: seq<Token>, t: Token)
    requires FirstOf(ts, t.name).None?
    ensures Meaning(ts + [t]) == Update(Meaning(ts), t)
  {
    hide FirstOf, Seconds, Flag, Duration, SetArgument, SetFlag;
    MeaningOneMore(ts, t);
    if t.found {
      ArgumentFields(Meaning(ts), t.name, t.val);
    } else {
      FlagFields(Meaning(ts), t.name);
    }
  }

  lemma MeaningRepeat(ts: seq<Token>, t: Token)
    requires FirstOf(ts, t.name).Some?
    ensures Meaning(ts + [t]) == Meaning(ts)
  {
    hide FirstOf;
    FirstOfAppendAll(ts, t);
    assert forall k :: FirstOf(ts + [t], k) == FirstOf(ts, k);
  }

  /** The switch over a directive with an argument that is the first of its name. */
  function SetArgument(cc: Directives, name: Name, val: string): Directives {
    match name
    case MaxAge => cc.(maxAge := Seconds(val))
    case NoCache => cc.(noCache := true)
    case Private => cc.(private_ := true)
    case SMaxAge => cc.(sMaxAge := Seconds(val))
    case StaleWhileRevalidate => cc.(staleWhileRevalidate := Seconds(val))
    case StaleIfError => cc.(staleIfError := Seconds(val))
    case _ => cc
  }

  /** The switch over a directive without an argument. */
  function SetFlag(cc: Directives, name: Name): Directives {
    match name
    case MustRevalidate => cc.(mustRevalidate := true)
    case MustUnderstand => cc.(mustUnderstand := true)
    case NoCache => cc.(noCache := true)
    case NoStore => cc.(noStore := true)
    case NoTransform => cc.(noTransform := true)
    case Private => cc.(private_ := true)
    case ProxyRevalidate => cc.(proxyRevalidate := true)
    case Public => cc.(public := true)
    case Immutable => cc.(immutable := true)
    case _ => cc
  }

  function Update(cc: Directives, t: Token): Directives {
    if t.found then SetArgument(cc, t.name, t.val) else SetFlag(cc, t.name)
  }

  method Parse(header: seq<string>) returns (r: Reading)
    ensures r == Read(header)
  {
    hide Progress, ToToken, Split, Update, Malformed;
    var cc := NO_DIRECTIVES;
    var seen: set<Name> := {};
    ghost var all := Tokens(header);
    ghost var n := 0;
    Begin(all);
    for i := 0 to |header|
      invariant n == |Tokens(header[..i])|
      invariant Progress(all, n, cc, seen)
    {
      var parts := Split(header[i]);
      TokensPrefix(header, i);
      ghost var start := n;
      for j := 0 to |parts|
        invariant n == start + j
        invariant Progress(all, n, cc, seen)
      {
        var t := ToToken(parts[j]);
        assert t == all[n];
        if t.name !in seen {
          if Malformed(t) {
            Fail(all, n, cc, seen);
            return Reading(cc, false);
          }
          Advance(all, n, cc, seen);
          seen := seen + {t.name};
          cc := Update(cc, t);
        } else {
          Advance(all, n, cc, seen);
          assert seen + {t.name} == seen;
        }
        n := n + 1;
      }
    }
    assert header[..|header|] == header;
    Finish(all, cc, seen);
    r := Reading(cc, true);
  }

  /* ---- What a field means, over its text ---- */

  function Trimmed(parts: seq<string>): (r: seq<string>)
    ensures |r| == |parts|
    ensures forall i :: 0 <= i < |r| ==> r[i] == TrimSpace(parts[i])
  {
    seq(|parts|, i requires 0 <= i < |parts| => TrimSpace(parts[i]))
  }

  /** The comma-separated elements of all lines, without the white space around them. */
  function Elements(lines: seq<string>): seq<string> {
    if lines == [] then [] else Trimmed(Split(lines[0])) + Elements(lines[1..])
  }

  /** The text before the '=' of an element, if there is one, is this. */
  predicate Says(element: string, spelling: string) {
    element == spelling || spelling + "=" <= element
  }

  /** The first element that says this. */
  function FirstSaying(es: seq<string>, spelling: string): Option<string> {
    if es == [] then None
    else if Says(es[0], spelling) then Some(es[0])
    else FirstSaying(es[1..], spelling)
  }

  /** The first element that says this says nothing else. */
  predicate Bare(es: seq<string>, spelling: string) {
    FirstSaying(es, spelling) == Some(spelling)
  }

  /** The first element that says this has this argument. */
  function Argument(es: seq<string>, spelling: string): Option<string> {
    match FirstSaying(es, spelling)
    case None => None
    case Some(e) => if |e| > |spelling| then Some(e[|spelling| + 1..]) else None
  }

  /** The duration it gives, in the arithmetic of the program. */
  function Amount(es: seq<string>, spelling: string): int {
    match Argument(es, spelling)
    case None => 0
    case Some(val) => Wrap(Atoi(val).value * SECOND)
  }

  const NUMBERS: set<string> := {"max-age", "s-maxage", "stale-while-revalidate", "stale-if-error"}

  /** Element i gives a bad number, and is the first to say what it says. */
  predicate BadText(es: seq<string>, i: nat)
    requires i < |es|
  {
    exists n :: n in NUMBERS && n + "=" <= es[i] && !Atoi(es[i][|n| + 1..]).ok && FirstSaying(es[..i], n).None?
  }

  /** The first bad element from position i on, or the end. */
  function FirstBad(es: seq<string>, i: nat): (n: nat)
    requires i <= |es|
    ensures i <= n <= |es| && (forall j :: i <= j < n ==> !BadText(es, j)) && (n < |es| ==> BadText(es, n))
    decreases |es| - i
  {
    if i == |es| || BadText(es, i) then i else FirstBad(es, i + 1)
  }

  /** The elements that count: those before the first bad one. */
  function Counting(lines: seq<string>): seq<string> {
    Elements(lines)[..FirstBad(Elements(lines), 0)]
  }

  /** Whether all of them do. */
  predicate AllCount(lines: seq<string>) {
    FirstBad(Elements(lines), 0) == |Elements(lines)|
  }

  /** The spelling of each name, once more. */
  predicate Spells(name: Name, spelling: string) {
    match name
    case Immutable => spelling == "immutable"
    case MaxAge => spelling == "max-age"
    case MustRevalidate => spelling == "must-revalidate"
    case MustUnderstand => spelling == "must-understand"
    case NoCache => spelling == "no-cache"
    case NoStore => spelling == "no-store"
    case NoTransform => spelling == "no-transform"
    case Private => spelling == "private"
    case ProxyRevalidate => spelling == "proxy-revalidate"
    case Public => spelling == "public"
    case SMaxAge => spelling == "s-maxage"
    case StaleWhileRevalidate => spelling == "stale-while-revalidate"
    case StaleIfError => spelling == "stale-if-error"
    case Unknown(_) => false
  }

  lemma ClassifiedBySpelling(key: string, name: Name, spelling: string)
    requires Spells(name, spelling)
    ensures Classify(key) == name <==> key == spelling
  {
  }

  lemma NoSign(name: Name, spelling: string)
    requires Spells(name, spelling)
    ensures '=' !in spelling
  {
  }

  lemma {:induction false} CutAtSign(key: string, val: string)
    requires '=' !in key
    ensures Cut(key + "=" + val) == (key, val, true)
  {
    var s := key + "=" + val;
    if key == "" {
      assert s[0] == '=' && s[1..] == val;
    } else {
      assert s[0] == key[0] && s[1..] == key[1..] + "=" + val;
      assert key[0] in key;
      CutAtSign(key[1..], val);
      assert [key[0]] + key[1..] == key;
    }
  }

  lemma {:induction false} CutParts(e: string)
    ensures var (key, val, found) := Cut(e);
            '=' !in key && if found then e == key + "=" + val else e == key && val == ""
  {
    if e != "" && e[0] != '=' {
      CutParts(e[1..]);
      var (key, val, found) := Cut(e[1..]);
      assert e == [e[0]] + e[1..];
      if found {
        assert [e[0]] + (key + "=" + val) == [e[0]] + key + "=" + val;
      }
    }
  }

  /** What the parser takes for the name, the argument and whether there is one. */
  lemma CutMeans(e: string, spelling: string)
    requires '=' !in spelling
    ensures var (key, val, found) := Cut(e);
            && (key == spelling <==> Says(e, spelling))
            && (key == spelling ==> (found <==> |e| > |spelling|))
            && (key == spelling && found ==> spelling + "=" <= e && val == e[|spelling| + 1..])
  {
    hide Cut, Says;
    CutParts(e);
    var (key, val, found) := Cut(e);
    if found {
      WithSign(e, key, val, spelling);
    } else {
      WithoutSign(e, spelling);
    }
  }

  lemma WithSign(e: string, key: string, val: string, spelling: string)
    requires e == key + "=" + val && '=' !in key && '=' !in spelling
    ensures key == spelling <==> Says(e, spelling)
    ensures key == spelling ==> |e| > |spelling| && spelling + "=" <= e && val == e[|spelling| + 1..]
  {
    assert e[|key|] == '=' && e[..|key|] == key;
    if Says(e, spelling) {
      SameSign(e, key, spelling);
    }
  }

  /** The first sign is at one place. */
  lemma SameSign(e: string, key: string, spelling: string)
    requires '=' !in key && '=' !in spelling && key + "=" <= e && Says(e, spelling)
    ensures key == spelling
  {
    assert e[|key|] == '=' && e[..|key|] == key;
    assert forall i :: 0 <= i < |key| ==> e[i] == key[i] && e[i] in key;
    assert forall i :: 0 <= i < |spelling| ==> e[i] == spelling[i] && e[i] in spelling;
    assert |spelling| < |e| ==> e[|spelling|] == (spelling + "=")[|spelling|];
  }

  lemma WithoutSign(e: string, spelling: string)
    requires '=' !in e
    ensures e == spelling <==> Says(e, spelling)
  {
    assert (spelling + "=")[|spelling|] == '=';
    assert forall i :: 0 <= i < |e| ==> e[i] in e;
  }

  function TokenOf(e: string): Token {
    var (key, val, found) := Cut(e);
    Token(Classify(key), val, found)
  }

  /** What an element is taken for, by its text. */
  lemma TokenMeans(e: string, name: Name, spelling: string)
    requires Spells(name, spelling)
    ensures var t := TokenOf(e);
            && (t.name == name <==> Says(e, spelling))
            && (t.name == name ==> (t.found <==> |e| > |spelling|))
            && (t.name == name && t.found ==> spelling + "=" <= e && t.val == e[|spelling| + 1..])
  {
    hide Cut, Classify, Says, Spells;
    NoSign(name, spelling);
    CutMeans(e, spelling);
    ClassifiedBySpelling(Cut(e).0, name, spelling);
  }

  ghost predicate Parallel(ts: seq<Token>, es: seq<string>) {
    |ts| == |es| && forall i :: 0 <= i < |ts| ==> ts[i] == TokenOf(es[i])
  }

  lemma {:induction false} TokensAreElements(lines: seq<string>)
    ensures Parallel(Tokens(lines), Elements(lines))
  {
    hide TokenOf, Split, TrimSpace;
    if lines != [] {
      TokensAreElements(lines[1..]);
      var parts := Split(lines[0]);
      forall i | 0 <= i < |parts|
        ensures TokensOf(parts)[i] == TokenOf(Trimmed(parts)[i])
      {
        PartIsElement(parts[i]);
      }
    }
  }

  lemma PartIsElement(part: string)
    ensures ToToken(part) == TokenOf(TrimSpace(part))
  {
    hide Cut, Classify, TrimSpace;
  }

  /** The first of a name and the first saying its spelling are the same element. */
  lemma {:induction false} FirstIsFirst(ts: seq<Token>, es: seq<string>, name: Name, spelling: string)
    requires Parallel(ts, es) && Spells(name, spelling)
    ensures FirstOf(ts, name).None? <==> FirstSaying(es, spelling).None?
    ensures FirstOf(ts, name).Some? ==>
              && FirstOf(ts, name).value == TokenOf(FirstSaying(es, spelling).value)
              && FirstOf(ts, name).value.name == name
  {
    hide TokenOf, Says, Spells;
    if ts != [] {
      TokenMeans(es[0], name, spelling);
      FirstIsFirst(ts[1..], es[1..], name, spelling);
    }
  }

  lemma FieldMeans(ts: seq<Token>, es: seq<string>, name: Name, spelling: string)
    requires Parallel(ts, es) && Spells(name, spelling)
    ensures Flag(ts, name) <==> Bare(es, spelling)
    ensures Duration(ts, name) == Amount(es, spelling)
    ensures FirstOf(ts, name).Some? <==> FirstSaying(es, spelling).Some?
  {
    hide TokenOf, Spells, FirstOf, FirstSaying, Atoi, Wrap, Says;
    FirstIsFirst(ts, es, name, spelling);
    if FirstOf(ts, name).Some? {
      var e := FirstSaying(es, spelling).value;
      TokenMeans(e, name, spelling);
      SaidAlone(e, spelling);
    }
  }

  lemma SaidAlone(e: string, spelling: string)
    requires Says(e, spelling)
    ensures |e| <= |spelling| ==> e == spelling
  {
  }

  lemma BadIsBad(ts: seq<Token>, es: seq<string>, i: nat)
    requires Parallel(ts, es) && i < |ts|
    ensures BadAt(ts, i) <==> BadText(es, i)
  {
    hide TokenOf, FirstOf, FirstSaying, Atoi, Says, Spells;
    if BadAt(ts, i) {
      var n := NumberSpelling(ts[i].name);
      BadOne(ts, es, i, ts[i].name, n);
    }
    if BadText(es, i) {
      var n :| n in NUMBERS && n + "=" <= es[i] && !Atoi(es[i][|n| + 1..]).ok && FirstSaying(es[..i], n).None?;
      var name := NumberName(n);
      BadOne(ts, es, i, name, n);
    }
  }

  lemma NumberSpelling(name: Name) returns (n: string)
    requires Numeric(name)
    ensures n in NUMBERS && Spells(name, n)
  {
    n := if name.MaxAge? then "max-age" else if name.SMaxAge? then "s-maxage"
         else if name.StaleWhileRevalidate? then "stale-while-revalidate" else "stale-if-error";
  }

  lemma NumberName(n: string) returns (name: Name)
    requires n in NUMBERS
    ensures Numeric(name) && Spells(name, n)
  {
    name := if n == "max-age" then MaxAge else if n == "s-maxage" then SMaxAge
            else if n == "stale-while-revalidate" then StaleWhileRevalidate else StaleIfError;
  }

  lemma BadOne(ts: seq<Token>, es: seq<string>, i: nat, name: Name, n: string)
    requires Parallel(ts, es) && i < |ts| && Numeric(name) && Spells(name, n)
    ensures ts[i].name == name && BadAt(ts, i) <==>
            n + "=" <= es[i] && !Atoi(es[i][|n| + 1..]).ok && FirstSaying(es[..i], n).None?
  {
    hide TokenOf, FirstOf, FirstSaying, Atoi, Spells;
    TokenMeans(es[i], name, n);
    FirstIsFirst(ts[..i], es[..i], name, n);
  }

  /** The directives of a list of elements, by their text. */
  function TextMeaning(es: seq<string>): Directives {
    Directives(
      immutable := Bare(es, "immutable"),
      maxAge := Amount(es, "max-age"),
      mustRevalidate := Bare(es, "must-revalidate"),
      mustUnderstand := Bare(es, "must-understand"),
      noCache := FirstSaying(es, "no-cache").Some?,
      noStore := Bare(es, "no-store"),
      noTransform := Bare(es, "no-transform"),
      private_ := FirstSaying(es, "private").Some?,
      proxyRevalidate := Bare(es, "proxy-revalidate"),
      public := Bare(es, "public"),
      sMaxAge := Amount(es, "s-maxage"),
      staleWhileRevalidate := Amount(es, "stale-while-revalidate"),
      staleIfError := Amount(es, "stale-if-error"))
  }

  lemma MeaningIsText(ts: seq<Token>, es: seq<string>)
    requires Parallel(ts, es)
    ensures Meaning(ts) == TextMeaning(es)
  {
    hide Flag, Bare, Duration, Amount, FirstOf, FirstSaying, Parallel;
    FieldMeans(ts, es, Immutable, "immutable");
    FieldMeans(ts, es, MaxAge, "max-age");
    FieldMeans(ts, es, MustRevalidate, "must-revalidate");
    FieldMeans(ts, es, MustUnderstand, "must-understand");
    FieldMeans(ts, es, NoCache, "no-cache");
    FieldMeans(ts, es, NoStore, "no-store");
    FieldMeans(ts, es, NoTransform, "no-transform");
    FieldMeans(ts, es, Private, "private");
    FieldMeans(ts, es, ProxyRevalidate, "proxy-revalidate");
    FieldMeans(ts, es, Public, "public");
    FieldMeans(ts, es, SMaxAge, "s-maxage");
    FieldMeans(ts, es, StaleWhileRevalidate, "stale-while-revalidate");
    FieldMeans(ts, es, StaleIfError, "stale-if-error");
  }

  /** What the field is read as, over its text: of the elements before the first bad number, the first that says
      a directive decides it. */
  lemma ReadMeans(lines: seq<string>)
    ensures Read(lines) == Reading(TextMeaning(Counting(lines)), AllCount(lines))
  {
    hide Tokens, Elements, Meaning, TextMeaning, BadAt, BadText, TokenOf;
    var ts, es := Tokens(lines), Elements(lines);
    TokensAreElements(lines);
    forall i: nat | i < |ts|
      ensures BadAt(ts, i) <==> BadText(es, i)
    {
      BadIsBad(ts, es, i);
    }
    var n := StopFrom(ts, 0);
    assert FirstBad(es, 0) == n;
    MeaningIsText(ts[..n], es[..n]);
  }
}
