/** API keys, internal/apikeys/apikeys.go: how a list of scopes is stored as text, read back and checked. */
module ApiKeys {
  import opened Wrappers

  // ----- The string functions of the standard library that the code uses -----

  predicate IsBracket(c: char) { c == '[' || c == ']' }

  predicate IsQuote(c: char) { c == '"' }

  /** White space as `unicode.IsSpace` defines it. */
  predicate IsSpace(c: char) {
    || '\t' <= c <= '\r' || c == ' ' || c == '\U{85}' || c == '\U{A0}' || c == '\U{1680}' || '\U{2000}' <= c <= '\U{200A}'
    || c == '\U{2028}' || c == '\U{2029}' || c == '\U{202F}' || c == '\U{205F}' || c == '\U{3000}'
  }

  function TrimLeft(s: string, cut: char -> bool): string {
    if s != "" && cut(s[0]) then TrimLeft(s[1..], cut) else s
  }

  function TrimRight(s: string, cut: char -> bool): string {
    if s != "" && cut(s[|s| - 1]) then TrimRight(s[..|s| - 1], cut) else s
  }

  function Trim(s: string, cut: char -> bool): string {
    TrimRight(TrimLeft(s, cut), cut)
  }

  /** One more character in front: a comma starts a new part, anything else joins the first part. */
  function Push(c: char, parts: seq<string>): (r: seq<string>)
    requires parts != []
    ensures r != []
  {
    if c == ',' then [""] + parts else [[c] + parts[0]] + parts[1..]
  }

  function Split(s: string): (parts: seq<string>)
    ensures parts != []
  {
    if s == "" then [""] else Push(s[0], Split(s[1..]))
  }

  function Join(parts: seq<string>, separator: string): string {
    if parts == [] then "" else if |parts| == 1 then parts[0]
    else Join(parts[..|parts| - 1], separator) + separator + parts[|parts| - 1]
  }

  predicate HasPrefix(s: string, prefix: string) { prefix <= s }

  predicate HasSuffix(s: string, suffix: string) { |suffix| <= |s| && s[|s| - |suffix|..] == suffix }

  // ----- Printing and reading scopes -----

  function Print(scopes: seq<string>): string {
    if scopes == [] then "[]" else "[\"" + Join(scopes, "\",\"") + "\"]"
  }

  function Bare(part: string): string {
    Trim(Trim(part, IsSpace), IsQuote)
  }

  /** The parts that are not empty once bare. */
  function Kept(parts: seq<string>): seq<string> {
    if parts == [] then [] else
      Kept(parts[..|parts| - 1]) + if Bare(parts[|parts| - 1]) != "" then [Bare(parts[|parts| - 1])] else []
  }

  function Parse(text: string): seq<string> {
    if text == "" || text == "[]" then [] else
      var inner := Trim(text, IsBracket);
      if inner == "" then [] else Kept(Split(inner))
  }

  /** A scope that survives storage. */
  predicate Clean(scope: string) {
    scope != "" && ',' !in scope && !IsQuote(scope[0]) && !IsQuote(scope[|scope| - 1])
  }

  predicate AllClean(scopes: seq<string>) {
    forall i :: 0 <= i < |scopes| ==> Clean(scopes[i])
  }

  ghost predicate NoCommas(parts: seq<string>) {
    forall i :: 0 <= i < |parts| ==> ',' !in parts[i]
  }

  function Quoted(scope: string): string {
    "\"" + scope + "\""
  }

  /** What one stored scope comes back as, whatever characters it has. */
  function ReadBack(scope: string): seq<string> {
    Kept(Split(Quoted(scope)))
  }

  function AllReadBack(scopes: seq<string>): seq<string> {
    if scopes == [] then [] else AllReadBack(scopes[..|scopes| - 1]) + ReadBack(scopes[|scopes| - 1])
  }

  lemma {:induction false} TrimmedEnds(s: string, cut: char -> bool)
    ensures var t := TrimRight(s, cut);
      t <= s && (t != "" ==> !cut(t[|t| - 1])) && forall i :: |t| <= i < |s| ==> cut(s[i])
  {
    if s != "" { TrimmedEnds(s[..|s| - 1], cut); }
  }

  lemma {:induction false} TrimmedStarts(s: string, cut: char -> bool)
    ensures var t := TrimLeft(s, cut);
      |t| <= |s| && t == s[|s| - |t|..] && (t != "" ==> !cut(t[0])) && forall i :: 0 <= i < |s| - |t| ==> cut(s[i])
  {
    if s != "" { TrimmedStarts(s[1..], cut); }
  }

  /** Trimming takes off trimmed characters only, and every one of them at either end. */
  lemma TrimSpec(s: string, cut: char -> bool) returns (left: string, right: string)
    ensures s == left + Trim(s, cut) + right
    ensures (forall i :: 0 <= i < |left| ==> cut(left[i])) && forall i :: 0 <= i < |right| ==> cut(right[i])
    ensures Trim(s, cut) != "" ==> !cut(Trim(s, cut)[0]) && !cut(Trim(s, cut)[|Trim(s, cut)| - 1])
  {
    hide TrimLeft, TrimRight;
    var mid := TrimLeft(s, cut);
    var t := TrimRight(mid, cut);
    assert t == Trim(s, cut);
    hide Trim;
    TrimmedStarts(s, cut);
    TrimmedEnds(mid, cut);
    left, right := s[..|s| - |mid|], mid[|t|..];
    assert s == left + mid && mid == t + right;
  }

  /** What is taken off a part: white space at its ends, and then quotes. */
  lemma BareSpec(part: string) returns (before: string, open: string, close: string, after: string)
    ensures part == before + (open + Bare(part) + close) + after
    ensures (forall c :: c in before || c in after ==> IsSpace(c)) && forall c :: c in open || c in close ==> c == '"'
    ensures var t := open + Bare(part) + close; t != "" ==> !IsSpace(t[0]) && !IsSpace(t[|t| - 1])
    ensures var t := Bare(part); t != "" ==> t[0] != '"' && t[|t| - 1] != '"'
  {
    hide Trim;
    before, after := TrimSpec(part, IsSpace);
    open, close := TrimSpec(Trim(part, IsSpace), IsQuote);
  }

  lemma TrimOne(c: char, s: string, d: char, cut: char -> bool)
    requires cut(c) && cut(d) && s != "" && !cut(s[0]) && !cut(s[|s| - 1])
    ensures Trim([c] + s + [d], cut) == s
  {
    var t := s + [d];
    assert [c] + s + [d] == [c] + t && ([c] + t)[1..] == t && t[0] == s[0];
    assert TrimLeft(t, cut) == t;
    assert t[..|t| - 1] == s && TrimRight(s, cut) == s;
  }

  lemma {:induction false} SplitParts(s: string)
    ensures NoCommas(Split(s))
  {
    if s != "" { SplitParts(s[1..]); }
  }

  lemma SplitCons(c: char, s: string)
    ensures Split([c] + s) == Push(c, Split(s))
  {
    assert ([c] + s)[1..] == s;
  }

  lemma PushConcat(c: char, a: seq<string>, b: seq<string>)
    requires a != []
    ensures Push(c, a + b) == Push(c, a) + b
  {
    assert (a + b)[0] == a[0] && (a + b)[1..] == a[1..] + b;
  }

  /** Splitting at a comma splits the two sides on their own. */
  lemma {:induction false} SplitConcat(a: string, b: string)
    ensures Split(a + "," + b) == Split(a) + Split(b)
  {
    if a == "" {
      assert a + "," + b == [','] + b;
      SplitCons(',', b);
    } else {
      hide Split, Push;
      SplitConcat(a[1..], b);
      SplitCons(a[0], a[1..]);
      SplitCons(a[0], a[1..] + "," + b);
      PushConcat(a[0], Split(a[1..]), Split(b));
      assert [a[0]] + a[1..] == a && [a[0]] + (a[1..] + "," + b) == a + "," + b;
    }
  }

  lemma {:induction false} SplitWhole(s: string)
    requires ',' !in s
    ensures Split(s) == [s]
  {
    if s != "" {
      SplitWhole(s[1..]);
      assert [s[0]] + s[1..] == s;
    }
  }

  lemma {:induction false} KeptConcat(a: seq<string>, b: seq<string>)
    ensures Kept(a + b) == Kept(a) + Kept(b)
  {
    if b == [] {
      assert a + b == a;
    } else {
      assert (a + b)[..|a + b| - 1] == a + b[..|b| - 1];
      KeptConcat(a, b[..|b| - 1]);
    }
  }

  lemma KeptOne(part: string)
    ensures Kept([part]) == if Bare(part) != "" then [Bare(part)] else []
  {
    assert [part] == [] + [part];
    KeptConcat([], [part]);
    assert Kept([part][..0]) == [];
  }

  lemma BareIsClean(part: string)
    requires ',' !in part
    ensures Bare(part) != "" ==> Clean(Bare(part))
  {
    var inner := Trim(part, IsSpace);
    var l, r := TrimSpec(part, IsSpace);
    l, r := TrimSpec(inner, IsQuote);
    hide Trim;
    assert forall c :: c in inner ==> c in part;
    assert forall c :: c in Bare(part) ==> c in inner;
  }

  lemma {:induction false} KeptAreClean(parts: seq<string>)
    requires NoCommas(parts)
    ensures AllClean(Kept(parts))
  {
    if parts != [] {
      KeptAreClean(parts[..|parts| - 1]);
      var last := parts[|parts| - 1];
      BareIsClean(last);
    }
  }

  lemma {:induction false} AllReadBackAreClean(scopes: seq<string>)
    ensures AllClean(AllReadBack(scopes))
  {
    if scopes != [] {
      AllReadBackAreClean(scopes[..|scopes| - 1]);
      var last := scopes[|scopes| - 1];
      SplitParts(Quoted(last));
      KeptAreClean(Split(Quoted(last)));
      hide ReadBack, Clean;
    }
  }

  lemma ReadBackClean(scope: string)
    requires Clean(scope)
    ensures ReadBack(scope) == [scope]
  {
    var q := Quoted(scope);
    SplitWhole(q);
    assert Trim(q, IsSpace) == q;
    TrimOne('"', scope, '"', IsQuote);
    KeptOne(q);
  }

  lemma JoinLast(scopes: seq<string>)
    requires |scopes| > 1
    ensures var front, last := scopes[..|scopes| - 1], scopes[|scopes| - 1];
      "\"" + Join(scopes, "\",\"") + "\"" == ("\"" + Join(front, "\",\"") + "\"") + "," + Quoted(last)
  {
    var front := scopes[..|scopes| - 1];
    assert Join(scopes, "\",\"") == Join(front, "\",\"") + "\",\"" + scopes[|scopes| - 1];
    hide Join;
  }

  /** The stored text without its brackets is each scope in quotes, joined by commas; splitting it keeps scopes apart. */
  lemma {:induction false} StoredParts(scopes: seq<string>)
    requires scopes != []
    ensures Kept(Split("\"" + Join(scopes, "\",\"") + "\"")) == AllReadBack(scopes)
  {
    hide Split, Kept, Push;
    var front, last := scopes[..|scopes| - 1], scopes[|scopes| - 1];
    if |scopes| > 1 {
      StoredParts(front);
      JoinLast(scopes);
      hide Join;
      var head := "\"" + Join(front, "\",\"") + "\"";
      SplitConcat(head, Quoted(last));
      KeptConcat(Split(head), Split(Quoted(last)));
    } else {
      assert Join(scopes, "\",\"") == last;
      assert AllReadBack(front) == [];
    }
  }

  lemma ParseOfInner(inner: string)
    requires |inner| >= 2 && inner[0] == inner[|inner| - 1] == '"'
    ensures Parse("[" + inner + "]") == Kept(Split(inner))
  {
    hide Kept, Split, Trim;
    BracketsOff(inner);
  }

  lemma PrintInner(scopes: seq<string>)
    requires scopes != []
    ensures var inner := "\"" + Join(scopes, "\",\"") + "\"";
      Print(scopes) == "[" + inner + "]" && |inner| >= 2 && inner[0] == inner[|inner| - 1] == '"'
  {
    hide Join;
    assert "\"]" == "\"" + "]";
  }

  /** The stored text: brackets around the scopes, each in quotes, with a comma before each but the first. */
  lemma PrintSpec(scopes: seq<string>, last: string)
    ensures Print([]) == "[]" && Print([last]) == "[" + Quoted(last) + "]"
    ensures scopes != [] ==> Print(scopes + [last]) == Print(scopes)[..|Print(scopes)| - 1] + "," + Quoted(last) + "]"
  {
    PrintInner([last]);
    assert Join([last], "\",\"") == last;
    if scopes != [] {
      var all := scopes + [last];
      assert all[..|all| - 1] == scopes;
      JoinLast(all);
      PrintInner(all);
      PrintInner(scopes);
      hide Join, Print;
      assert Print(scopes)[..|Print(scopes)| - 1] == "[" + ("\"" + Join(scopes, "\",\"") + "\"");
    }
  }

  /** What comes back from storage, for every list of scopes: each scope is read back on its own. */
  lemma ParseOfPrint(scopes: seq<string>)
    ensures Parse(Print(scopes)) == AllReadBack(scopes)
  {
    if scopes != [] {
      hide *;
      StoredParts(scopes);
      PrintInner(scopes);
      ParseOfInner("\"" + Join(scopes, "\",\"") + "\"");
    }
  }

  lemma BracketsOff(inner: string)
    requires |inner| >= 2 && inner[0] == inner[|inner| - 1] == '"'
    ensures Trim("[" + inner + "]", IsBracket) == inner
  {
    TrimOne('[', inner, ']', IsBracket);
  }

  /** Printing and parsing gives the same list if and only if every scope is clean. */
  lemma RoundTripIff(scopes: seq<string>)
    ensures Parse(Print(scopes)) == scopes <==> AllClean(scopes)
  {
    ParseOfPrint(scopes);
    AllReadBackAreClean(scopes);
    if AllClean(scopes) {
      CleanComeBack(scopes);
    }
  }

  lemma CleanFront(scopes: seq<string>)
    requires AllClean(scopes) && scopes != []
    ensures AllClean(scopes[..|scopes| - 1]) && Clean(scopes[|scopes| - 1])
    ensures scopes == scopes[..|scopes| - 1] + [scopes[|scopes| - 1]]
  {
    hide Clean;
  }

  lemma {:induction false} CleanComeBack(scopes: seq<string>)
    requires AllClean(scopes)
    ensures AllReadBack(scopes) == scopes
  {
    hide AllClean, Clean, ReadBack;
    if scopes != [] {
      CleanFront(scopes);
      CleanComeBack(scopes[..|scopes| - 1]);
      ReadBackClean(scopes[|scopes| - 1]);
    }
  }

  // ----- Checking a scope -----

  /** One scope admits a request: it is the star, it is the request, or it ends in ":*" and the rest starts the request. */
  predicate Admits(scope: string, required: string) {
    scope == "*" || scope == required || (HasSuffix(scope, ":*") && HasPrefix(required, scope[..|scope| - 1]))
  }

  /** An empty list admits everything. */
  predicate Grants(scopes: seq<string>, required: string) {
    scopes == [] || exists s :: s in scopes && Admits(s, required)
  }

  /** The text before ":*" and a colon start the request. */
  ghost predicate Pattern(scope: string, required: string) {
    exists p: string :: scope == p + ":*" && p + ":" <= required
  }

  /** A list grants a request if it is empty or holds a star, the request itself, or a pattern for it, and not otherwise. */
  lemma GrantsIff(scopes: seq<string>, required: string)
    ensures Grants(scopes, required) <==>
      || scopes == [] || "*" in scopes || required in scopes
      || exists i :: 0 <= i < |scopes| && Pattern(scopes[i], required)
  {
    forall i | 0 <= i < |scopes|
      ensures Admits(scopes[i], required) <==> scopes[i] == "*" || scopes[i] == required || Pattern(scopes[i], required)
    {
      AdmitsIff(scopes[i], required);
    }
    hide Admits, Pattern;
  }

  lemma AdmitsIff(scope: string, required: string)
    ensures Admits(scope, required) <==> scope == "*" || scope == required || Pattern(scope, required)
  {
    if HasSuffix(scope, ":*") {
      var p := scope[..|scope| - 2];
      assert scope == p + ":*" && scope[..|scope| - 1] == p + ":";
    }
    if Pattern(scope, required) {
      var p: string :| scope == p + ":*" && p + ":" <= required;
      assert scope[..|scope| - 1] == p + ":" && scope[|scope| - 2..] == ":*";
    }
  }

  /** Storage changes no answer for clean scopes. */
  lemma StorageKeepsAccess(scopes: seq<string>, required: string)
    requires AllClean(scopes)
    ensures Grants(Parse(Print(scopes)), required) <==> Grants(scopes, required)
  {
    RoundTripIff(scopes);
  }

  // ----- Which lists of scopes keep their meaning, read off their texts -----

  /** One of the comma-separated parts of the quoted scope is `text` once bare. */
  ghost predicate PartOf(scope: string, text: string) {
    exists j :: 0 <= j < |Split(Quoted(scope))| && Bare(Split(Quoted(scope))[j]) == text
  }

  ghost predicate IsPart(scopes: seq<string>, text: string) {
    exists i :: 0 <= i < |scopes| && PartOf(scopes[i], text)
  }

  lemma {:induction false} KeptTexts(parts: seq<string>, text: string)
    ensures text in Kept(parts) <==> text != "" && exists j :: 0 <= j < |parts| && Bare(parts[j]) == text
  {
    hide Bare, Kept;
    if parts == [] {
      var none: seq<string> := [];
      KeptConcat(none, none);
      assert none + none == none && |Kept(none)| == |Kept(none)| + |Kept(none)|;
    } else {
      var front, last := parts[..|parts| - 1], parts[|parts| - 1];
      KeptTexts(front, text);
      KeptConcat(front, [last]);
      KeptOne(last);
      assert front + [last] == parts;
    }
  }

  lemma ReadBackText(scope: string, text: string)
    ensures text in ReadBack(scope) <==> text != "" && PartOf(scope, text)
  {
    hide Bare, Split, Quoted, Kept;
    KeptTexts(Split(Quoted(scope)), text);
  }

  lemma IsPartLast(scopes: seq<string>, text: string)
    requires scopes != []
    ensures IsPart(scopes, text) <==> IsPart(scopes[..|scopes| - 1], text) || PartOf(scopes[|scopes| - 1], text)
  {
    hide PartOf;
    var front := scopes[..|scopes| - 1];
    assert forall i :: 0 <= i < |front| ==> front[i] == scopes[i];
  }

  /** What comes back is exactly the parts that are not empty. */
  lemma {:induction false} ReadBackTexts(scopes: seq<string>, text: string)
    ensures text in AllReadBack(scopes) <==> text != "" && IsPart(scopes, text)
  {
    hide ReadBack, PartOf;
    if scopes != [] {
      IsPartLast(scopes, text);
      ReadBackText(scopes[|scopes| - 1], text);
      hide IsPart;
      ReadBackTexts(scopes[..|scopes| - 1], text);
    }
  }

  /**
   * A stored key grants everything if and only if some comma-separated part of a quoted scope is a bare star, or every
   * such part is bare of anything.
   */
  lemma GrantsEverythingIff(scopes: seq<string>)
    ensures (forall required :: Grants(Parse(Print(scopes)), required))
      <==> IsPart(scopes, "*") || forall text :: IsPart(scopes, text) ==> text == ""
  {
    hide Parse, Print, AllReadBack, IsPart;
    ParseOfPrint(scopes);
    AllReadBackAreClean(scopes);
    var back := AllReadBack(scopes);
    forall text ensures text in back <==> text != "" && IsPart(scopes, text) {
      ReadBackTexts(scopes, text);
    }
    if "*" in back {
      assert forall required :: Admits("*", required);
    } else if back != [] {
      CleanGrantsNotEmpty(back);
      assert back[0] in back;
    }
  }

  lemma PatternEnds(s: string)
    requires HasSuffix(s, ":*")
    ensures |s| >= 2 && s[|s| - 2] == ':' && s[|s| - 1] == '*'
  {
    assert s[|s| - 2..][0] == ':' && s[|s| - 2..][1] == '*';
  }

  /** What an admitted pattern admits is admitted. */
  lemma AdmitsTwice(a: string, b: string, c: string)
    requires Admits(a, b) && Admits(b, c)
    ensures Admits(a, c)
  {
    if a != "*" && a != b {
      PatternEnds(a);
      var p := a[..|a| - 1];
      assert p[|p| - 1] == b[|p| - 1] == ':';
      if b != c {
        PatternEnds(b);
        assert p <= b[..|b| - 1] <= c;
      }
    }
  }

  lemma GrantsItself(a: seq<string>, s: string)
    requires s in a
    ensures Grants(a, s)
  {
    assert Admits(s, s);
  }

  /** Each scope of `a`, taken as a request, is granted by `b`. */
  ghost predicate Covered(a: seq<string>, b: seq<string>) {
    forall s :: s in a ==> Grants(b, s)
  }

  ghost predicate SameAccess(a: seq<string>, b: seq<string>) {
    forall required :: Grants(a, required) <==> Grants(b, required)
  }

  /** Two lists that are not empty grant the same if and only if each grants every scope of the other, taken as a request. */
  lemma SameAccessIff(a: seq<string>, b: seq<string>)
    requires a != [] && b != []
    ensures SameAccess(a, b) <==> Covered(a, b) && Covered(b, a)
  {
    hide Grants;
    forall s | s in a ensures Grants(a, s) { GrantsItself(a, s); }
    forall s | s in b ensures Grants(b, s) { GrantsItself(b, s); }
    if Covered(a, b) && Covered(b, a) {
      hide Covered;
      forall required ensures Grants(a, required) <==> Grants(b, required) {
        if Grants(a, required) { GrantsThrough(a, b, required); }
        if Grants(b, required) { GrantsThrough(b, a, required); }
      }
    }
  }

  lemma GrantsThrough(a: seq<string>, b: seq<string>, required: string)
    requires a != [] && b != [] && Covered(a, b) && Grants(a, required)
    ensures Grants(b, required)
  {
    hide Admits;
    var s :| s in a && Admits(s, required);
    var t :| t in b && Admits(t, s);
    AdmitsTwice(t, s, required);
  }

  /** Every scope is still granted by a part, and every part that is not empty was already granted by the scopes. */
  ghost predicate PartsCover(scopes: seq<string>) {
    && (forall s :: s in scopes ==> exists text :: text != "" && IsPart(scopes, text) && Admits(text, s))
    && (forall text :: text != "" && IsPart(scopes, text) ==> Grants(scopes, text))
  }

  lemma PartsCoverIff(scopes: seq<string>)
    requires scopes != []
    ensures PartsCover(scopes) <==> AllReadBack(scopes) != [] && Covered(scopes, AllReadBack(scopes)) && Covered(AllReadBack(scopes), scopes)
  {
    hide AllReadBack, IsPart, Admits;
    var back := AllReadBack(scopes);
    forall text ensures text in back <==> text != "" && IsPart(scopes, text) {
      ReadBackTexts(scopes, text);
    }
    assert scopes[0] in scopes;
  }

  /** Storage changes no answer if and only if the scopes and the parts of the quoted scopes cover each other. */
  lemma AccessKeptIff(scopes: seq<string>)
    ensures SameAccess(Parse(Print(scopes)), scopes) <==> PartsCover(scopes)
  {
    ParseOfPrint(scopes);
    if scopes == [] {
      hide Parse, Print;
      assert AllReadBack([]) == [] && PartsCover([]);
    } else {
      hide Parse, Print, AllReadBack, PartsCover, Covered;
      PartsCoverIff(scopes);
      if AllReadBack(scopes) == [] {
        var required := Ungranted(scopes);
        assert Grants([], required);
      } else {
        SameAccessIff(AllReadBack(scopes), scopes);
      }
    }
  }

  lemma LongRequest(s: string, required: string)
    requires s != "*" && |s| < |required| && ':' !in required
    ensures !Admits(s, required)
  {
    if HasSuffix(s, ":*") {
      PatternEnds(s);
      var p := s[..|s| - 1];
      assert p[|p| - 1] == ':' && required[|p| - 1] != ':';
    }
  }

  /** A request that no scope of a list without a star admits. */
  lemma Ungranted(scopes: seq<string>) returns (required: string)
    requires scopes != [] && AllReadBack(scopes) == []
    ensures !Grants(scopes, required)
  {
    hide AllReadBack, Admits;
    if "*" in scopes { StarComesBack(scopes); }
    required := seq(Longest(scopes) + 1, i => 'a');
    forall s | s in scopes ensures !Admits(s, required) {
      var i :| 0 <= i < |scopes| && scopes[i] == s;
      LongRequest(s, required);
    }
  }

  lemma StarComesBack(scopes: seq<string>)
    requires "*" in scopes
    ensures "*" in AllReadBack(scopes)
  {
    hide AllReadBack, ReadBack, PartOf;
    ReadBackClean("*");
    ReadBackText("*", "*");
    ReadBackTexts(scopes, "*");
  }

  function Longest(scopes: seq<string>): (n: nat)
    ensures forall i :: 0 <= i < |scopes| ==> |scopes[i]| <= n
  {
    if scopes == [] then 0 else
      var n := Longest(scopes[..|scopes| - 1]);
      if n < |scopes[|scopes| - 1]| then |scopes[|scopes| - 1]| else n
  }

  /** A scope that ends in a comma and a star: the star becomes a scope of its own. */
  lemma CommaStarGrantsEverything(scopes: seq<string>, i: nat, head: string)
    requires i < |scopes| && scopes[i] == head + ",*"
    ensures forall required :: Grants(Parse(Print(scopes)), required)
  {
    hide Split;
    var a, b := "\"" + head, "*\"";
    assert Quoted(scopes[i]) == a + "," + b;
    SplitConcat(a, b);
    SplitWhole(b);
    var parts := Split(Quoted(scopes[i]));
    assert parts[|parts| - 1] == b;
    BareStar();
    assert Bare(parts[|parts| - 1]) == "*";
    assert PartOf(scopes[i], "*");
    hide Bare, PartOf;
    GrantsEverythingIff(scopes);
  }

  lemma BareStar()
    ensures Bare("*\"") == "*"
  {
    assert "*\""[..1] == "*";
    assert Trim("*\"", IsSpace) == "*\"";
    assert TrimRight("*", IsQuote) == "*";
  }

  /** Such a key did not grant everything before it was stored. */
  lemma StorageWidens()
    ensures !Grants(["read,*"], "write:all") && Grants(Parse(Print(["read,*"])), "write:all")
  {
    CommaStarGrantsEverything(["read,*"], 0, "read");
    assert "read,*"[4..] == ",*";
  }

  lemma CleanGrantsNotEmpty(scopes: seq<string>)
    requires AllClean(scopes) && scopes != [] && "*" !in scopes
    ensures !Grants(scopes, "")
  {
    forall s | s in scopes ensures !Admits(s, "") {
      var i :| 0 <= i < |scopes| && scopes[i] == s;
      assert Clean(scopes[i]);
    }
  }

  /** A list of nothing but empty scopes, which grants at most the empty request, grants everything once stored. */
  lemma EmptyScopesGrantEverything(scopes: seq<string>)
    requires forall i :: 0 <= i < |scopes| ==> scopes[i] == ""
    ensures Parse(Print(scopes)) == []
    ensures scopes != [] ==> forall required :: Grants(scopes, required) <==> required == ""
  {
    hide Parse, Print, AllReadBack, PartOf;
    ParseOfPrint(scopes);
    if AllReadBack(scopes) != [] {
      NothingComesBack(scopes, AllReadBack(scopes)[0]);
    }
    if scopes != [] {
      forall required ensures Grants(scopes, required) <==> required == "" {
        EmptyScopesGrant(scopes, required);
      }
    }
  }

  lemma EmptyScopesGrant(scopes: seq<string>, required: string)
    requires scopes != [] && forall i :: 0 <= i < |scopes| ==> scopes[i] == ""
    ensures Grants(scopes, required) <==> required == ""
  {
    assert scopes[0] in scopes;
  }

  lemma NothingComesBack(scopes: seq<string>, text: string)
    requires forall i :: 0 <= i < |scopes| ==> scopes[i] == ""
    ensures text !in AllReadBack(scopes)
  {
    hide AllReadBack, PartOf;
    ReadBackTexts(scopes, text);
    NoPartsOfEmpty(text);
  }

  lemma NoPartsOfEmpty(text: string)
    ensures PartOf("", text) ==> text == ""
  {
    var q := Quoted("");
    assert q == "\"\"";
    SplitWhole(q);
    assert q[1..] == "\"" && "\""[1..] == "";
    assert Trim(q, IsSpace) == q;
    assert Trim(q, IsQuote) == "";
  }

  /** The loop of `parseScopes`. */
  method ParseScopes(text: string) returns (scopes: seq<string>)
    ensures scopes == Parse(text)
  {
    if text == "" || text == "[]" {
      return [];
    }
    var inner := Trim(text, IsBracket);
    if inner == "" {
      return [];
    }
    var parts := Split(inner);
    scopes := [];
    for i := 0 to |parts|
      invariant scopes == Kept(parts[..i])
    {
      var scope := Bare(parts[i]);
      assert parts[..i + 1][..|parts[..i + 1]| - 1] == parts[..i];
      if scope != "" {
        scopes := scopes + [scope];
      }
    }
    assert parts[..|parts|] == parts;
  }

  // ----- The manager -----

  datatype Error = KeyNotFound | KeyInactive | KeyExpired

  /** A row of `api_keys`, found by the hash of its plain key; hashes do not collide, so the key itself stands for it. */
  datatype Row = Row(
    id: nat, user: nat, scopes: string, expiresAt: Option<int>, active: bool, createdAt: int, lastUsed: Option<int>, useCount: nat)

  datatype Key = Key(id: nat, user: nat, scopes: seq<string>)

  const PREFIX_LENGTH := 8

  function Plain(apiKey: string): string {
    if HasPrefix(apiKey, "tk_") then apiKey[3..] else apiKey
  }

  function Validated(rows: map<string, Row>, apiKey: string, now: int): Result<Key, Error> {
    var plain := Plain(apiKey);
    if |plain| < 2 * PREFIX_LENGTH || plain !in rows then Err(KeyNotFound)
    else if !rows[plain].active then Err(KeyInactive)
    else if rows[plain].expiresAt.Some? && now > rows[plain].expiresAt.value then Err(KeyExpired)
    else Ok(Key(rows[plain].id, rows[plain].user, Parse(rows[plain].scopes)))
  }

  function Created(id: nat, user: nat, scopes: seq<string>, expiresAt: Option<int>, now: int): Row {
    Row(id, user, Print(scopes), expiresAt, true, now, None, 0)
  }

  function Revoked(rows: map<string, Row>, id: nat, user: nat): map<string, Row> {
    map p | p in rows :: if rows[p].id == id && rows[p].user == user then rows[p].(active := false) else rows[p]
  }

  /** Expired rows go, and inactive ones created before `cutoff`. */
  function Swept(rows: map<string, Row>, now: int, cutoff: int): map<string, Row> {
    map p | p in rows &&
      !(rows[p].expiresAt.Some? && rows[p].expiresAt.value < now) && !(!rows[p].active && rows[p].createdAt < cutoff) :: rows[p]
  }

  /** A new key is accepted until it expires, with its own scopes if and only if they are clean. */
  lemma CreatedKeyIsAccepted(rows: map<string, Row>, plain: string, id: nat, user: nat, scopes: seq<string>,
                             expiresAt: Option<int>, created: int, now: int)
    requires |plain| == 64
    ensures var r := Validated(rows[plain := Created(id, user, scopes, expiresAt, created)], "tk_" + plain, now);
      && (r.Ok? <==> (expiresAt.Some? ==> now <= expiresAt.value))
      && (r.Ok? ==> r.value.id == id && r.value.user == user && r.value.scopes == AllReadBack(scopes))
      && (r.Ok? ==> (r.value.scopes == scopes <==> AllClean(scopes)))
  {
    hide Parse, Print, AllReadBack, AllClean;
    ParseOfPrint(scopes);
    RoundTripIff(scopes);
    assert ("tk_" + plain)[3..] == plain;
  }

  /** A key that its user has revoked is refused ever after; nobody else's key is touched. */
  lemma RevokedKeyIsRefused(rows: map<string, Row>, id: nat, user: nat, apiKey: string, now: int)
    ensures var plain := Plain(apiKey);
      var hit := plain in rows && rows[plain].id == id && rows[plain].user == user;
      Validated(Revoked(rows, id, user), apiKey, now) ==
        if hit && |plain| >= 16 then Err(KeyInactive) else Validated(rows, apiKey, now)
  {
    hide Parse, Plain;
  }

  /** From the moment of a cleanup on, the same keys are accepted as without it. */
  lemma CleanupIsInvisible(rows: map<string, Row>, now: int, cutoff: int, apiKey: string, later: int)
    requires now <= later
    ensures Validated(rows, apiKey, later).Ok? || Validated(Swept(rows, now, cutoff), apiKey, later).Ok? ==>
      Validated(Swept(rows, now, cutoff), apiKey, later) == Validated(rows, apiKey, later)
  {
    hide Parse;
  }

  class Manager {
    var rows: map<string, Row>
    var next: nat

    constructor ()
      ensures rows == map[] && next == 1
    {
      rows, next := map[], 1;
    }

    /** `plain` is the hexadecimal text of the random bytes. */
    method Create(plain: string, user: nat, scopes: seq<string>, expiresAt: Option<int>, now: int) returns (apiKey: string)
      requires |plain| == 64 && plain !in rows
      modifies this
      ensures apiKey == "tk_" + plain && next == old(next) + 1
      ensures rows == old(rows)[plain := Created(old(next), user, scopes, expiresAt, now)]
    {
      var text := "[]";
      if |scopes| > 0 {
        text := "[\"" + Join(scopes, "\",\"") + "\"]";
      }
      rows := rows[plain := Row(next, user, text, expiresAt, true, now, None, 0)];
      next := next + 1;
      return "tk_" + plain;
    }

    method Validate(apiKey: string, now: int) returns (r: Result<Key, Error>)
      modifies this`rows
      ensures r == Validated(old(rows), apiKey, now)
      ensures var plain := if "tk_" <= apiKey then apiKey[3..] else apiKey;
        && (r == Err(KeyNotFound) <==> |plain| < 16 || plain !in old(rows))
        && (r == Err(KeyInactive) <==> |plain| >= 16 && plain in old(rows) && !old(rows)[plain].active)
        && (r == Err(KeyExpired) ==> old(rows)[plain].expiresAt.Some? && now > old(rows)[plain].expiresAt.value)
        && (r.Ok? ==> (old(rows)[plain].expiresAt.Some? ==> now <= old(rows)[plain].expiresAt.value)
                      && r.value == Key(old(rows)[plain].id, old(rows)[plain].user, Parse(old(rows)[plain].scopes)))
      ensures r.Err? ==> rows == old(rows)
      ensures r.Ok? ==>
        var plain := Plain(apiKey);
        var row := old(rows)[plain];
        rows == old(rows)[plain := row.(lastUsed := Some(now), useCount := row.useCount + 1)]
    {
      hide Parse;
      var plain := apiKey;
      if HasPrefix(apiKey, "tk_") {
        plain := apiKey[3..];
      }
      if |plain| < 2 * PREFIX_LENGTH || plain !in rows {
        return Err(KeyNotFound);
      }
      var row := rows[plain];
      if !row.active {
        return Err(KeyInactive);
      }
      if row.expiresAt.Some? && now > row.expiresAt.value {
        return Err(KeyExpired);
      }
      var scopes := ParseScopes(row.scopes);
      rows := rows[plain := row.(lastUsed := Some(now), useCount := row.useCount + 1)];
      return Ok(Key(row.id, row.user, scopes));
    }

    method Revoke(id: nat, user: nat) returns (r: Result<(), Error>)
      modifies this`rows
      ensures rows == Revoked(old(rows), id, user)
      ensures r.Ok? <==> exists p :: p in old(rows) && old(rows)[p].id == id && old(rows)[p].user == user
      ensures r.Err? ==> r == Err(KeyNotFound) && rows == old(rows)
      ensures rows.Keys == old(rows).Keys && forall p :: p in rows ==>
        var hit := old(rows)[p].id == id && old(rows)[p].user == user;
        rows[p] == if hit then old(rows)[p].(active := false) else old(rows)[p]
    {
      var hit := exists p :: p in rows && rows[p].id == id && rows[p].user == user;
      rows := Revoked(rows, id, user);
      return if hit then Ok(()) else Err(KeyNotFound);
    }

    method Cleanup(now: int, cutoff: int)
      modifies this`rows
      ensures rows == Swept(old(rows), now, cutoff)
      ensures forall p :: p in old(rows) ==>
        var row := old(rows)[p];
        var gone := (row.expiresAt.Some? && row.expiresAt.value < now) || (!row.active && row.createdAt < cutoff);
        (p in rows <==> !gone) && (p in rows ==> rows[p] == row)
    {
      rows := Swept(rows, now, cutoff);
    }
  }

  /** The scan of `HasScope`. */
  method HasScope(scopes: seq<string>, required: string) returns (ok: bool)
    ensures ok <==> Grants(scopes, required)
  {
    if |scopes| == 0 {
      return true;
    }
    for i := 0 to |scopes|
      invariant forall k :: 0 <= k < i ==> !Admits(scopes[k], required)
    {
      var scope := scopes[i];
      assert scope in scopes;
      if scope == "*" || scope == required {
        return true;
      }
      if HasSuffix(scope, ":*") {
        var prefix := scope[..|scope| - 1];
        if HasPrefix(required, prefix) {
          return true;
        }
      }
    }
    return false;
  }
}
