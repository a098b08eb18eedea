/** The text of one push: clipping, and several notices told as one. What a notice
    says is opaque here; only its length and its whitespace matter. */
module Notices {
  const TITLE_MAX := 30
  const MESSAGE_MAX := 200

  datatype Key = SignalKey(id: nat) | HolderKey(id: nat) | RadarKey(id: nat)
  datatype Notice = Notice(key: Key, words: string, title: string, message: string, path: string)
  datatype Push = Push(title: string, message: string, path: string)

  // --- clipping -------------------------------------------------------------------

  predicate IsSpace(c: char) {
    '\t' <= c <= '\r' || c == ' ' || c == '\U{A0}' || c == '\U{1680}' || '\U{2000}' <= c <= '\U{200A}'
    || c == '\U{2028}' || c == '\U{2029}' || c == '\U{202F}' || c == '\U{205F}' || c == '\U{3000}' || c == '\U{FEFF}'
  }

  function TrimStart(s: string): (r: string)
    ensures |r| <= |s|
  {
    if s != "" && IsSpace(s[0]) then TrimStart(s[1..]) else s
  }

  function TrimEnd(s: string): (r: string)
    ensures |r| <= |s| && r == s[..|r|]
    ensures r != "" ==> !IsSpace(r[|r| - 1])
  {
    if s != "" && IsSpace(s[|s| - 1]) then TrimEnd(s[..|s| - 1]) else s
  }

  /** Every run of whitespace becomes one space. */
  function Collapsed(s: string): (r: string)
    ensures |r| <= |s|
    decreases |s|
  {
    if s == "" then ""
    else if IsSpace(s[0]) then " " + Collapsed(TrimStart(s[1..]))
    else [s[0]] + Collapsed(s[1..])
  }

  function Flat(s: string): (r: string)
    ensures |r| <= |s|
  {
    TrimEnd(TrimStart(Collapsed(s)))
  }

  function Clip(s: string, max: nat): string
    requires max > 0
  {
    if |Flat(s)| <= max then Flat(s) else TrimEnd(Flat(s)[..max - 1]) + "\U{2026}"
  }

  /** The only whitespace is single spaces between words. */
  ghost predicate IsFlat(s: string) {
    && SingleSpaced(s)
    && (s != "" ==> !IsSpace(s[0]) && !IsSpace(s[|s| - 1]))
  }

  ghost predicate SingleSpaced(s: string) {
    && (forall i :: 0 <= i < |s| && IsSpace(s[i]) ==> s[i] == ' ')
    && (forall i :: 0 <= i < |s| - 1 && IsSpace(s[i]) ==> !IsSpace(s[i + 1]))
  }

  lemma {:induction false} TrimStartFirst(s: string)
    ensures TrimStart(s) != "" ==> !IsSpace(TrimStart(s)[0])
  {
    if s != "" && IsSpace(s[0]) { TrimStartFirst(s[1..]); }
  }

  lemma {:induction false} CollapsedIsSingleSpaced(s: string)
    ensures SingleSpaced(Collapsed(s))
    ensures s != "" && !IsSpace(s[0]) ==> Collapsed(s) != "" && Collapsed(s)[0] == s[0]
    decreases |s|
  {
    if s == "" {
    } else if IsSpace(s[0]) {
      var rest := TrimStart(s[1..]);
      TrimStartFirst(s[1..]);
      CollapsedIsSingleSpaced(rest);
      assert rest == "" ==> Collapsed(rest) == "";
    } else {
      CollapsedIsSingleSpaced(s[1..]);
    }
  }

  lemma {:induction false} TrimStartSingleSpaced(s: string)
    requires SingleSpaced(s)
    ensures SingleSpaced(TrimStart(s))
  {
    if s != "" && IsSpace(s[0]) {
      assert forall i :: 0 <= i < |s[1..]| ==> s[1..][i] == s[i + 1];
      TrimStartSingleSpaced(s[1..]);
    }
  }

  lemma PrefixIsFlat(s: string, n: nat)
    requires IsFlat(s) && n <= |s|
    ensures IsFlat(TrimEnd(s[..n]))
  {
  }

  lemma FlatIsFlat(s: string)
    ensures IsFlat(Flat(s))
  {
    CollapsedIsSingleSpaced(s);
    TrimStartSingleSpaced(Collapsed(s));
    TrimStartFirst(Collapsed(s));
  }

  lemma {:induction false} SingleSpacedIsCollapsed(s: string)
    requires SingleSpaced(s)
    ensures Collapsed(s) == s
    decreases |s|
  {
    if s != "" {
      var rest := s[1..];
      assert forall i :: 0 <= i < |rest| ==> rest[i] == s[i + 1];
      SingleSpacedIsCollapsed(rest);
      if IsSpace(s[0]) { assert rest != "" ==> !IsSpace(rest[0]); }
    }
  }

  lemma FlatLeavesFlat(s: string)
    requires IsFlat(s)
    ensures Flat(s) == s
  {
    SingleSpacedIsCollapsed(s);
  }

  /** The words of a text, whatever whitespace stands between them. */
  function Words(s: string): seq<string> {
    if s == "" then []
    else if IsSpace(s[0]) then Words(s[1..])
    else if |s| == 1 || IsSpace(s[1]) then [[s[0]]] + Words(s[1..])
    else Longer(s[0], Words(s[1..]))
  }

  function Longer(c: char, words: seq<string>): seq<string> {
    if words == [] then [[c]] else [[c] + words[0]] + words[1..]
  }

  lemma {:induction false} TrimStartKeepsTheWords(s: string)
    ensures Words(TrimStart(s)) == Words(s)
  {
    if s != "" && IsSpace(s[0]) { TrimStartKeepsTheWords(s[1..]); }
  }

  lemma {:induction false} SpaceAfterTheWords(s: string, c: char)
    requires IsSpace(c)
    ensures Words(s + [c]) == Words(s)
  {
    if s == "" {
      assert [c][1..] == "";
    } else {
      assert (s + [c])[1..] == s[1..] + [c];
      SpaceAfterTheWords(s[1..], c);
      if |s| == 1 { assert s[1..] == ""; }
    }
  }

  lemma {:induction false} TrimEndKeepsTheWords(s: string)
    ensures Words(TrimEnd(s)) == Words(s)
  {
    if s != "" && IsSpace(s[|s| - 1]) {
      var front := s[..|s| - 1];
      TrimEndKeepsTheWords(front);
      SpaceAfterTheWords(front, s[|s| - 1]);
      assert s == front + [s[|s| - 1]];
    }
  }

  lemma {:induction false} CollapsedKeepsTheWords(s: string)
    ensures Words(Collapsed(s)) == Words(s)
    ensures (Collapsed(s) == "" <==> s == "") && (s != "" ==> (IsSpace(Collapsed(s)[0]) <==> IsSpace(s[0])))
    decreases |s|
  {
    if s == "" {
    } else if IsSpace(s[0]) {
      var rest := TrimStart(s[1..]);
      CollapsedKeepsTheWords(rest);
      TrimStartKeepsTheWords(s[1..]);
      assert (" " + Collapsed(rest))[1..] == Collapsed(rest);
    } else {
      var c := Collapsed(s[1..]);
      CollapsedKeepsTheWords(s[1..]);
      assert ([s[0]] + c)[1..] == c && (c != "" ==> ([s[0]] + c)[1] == c[0]);
    }
  }

  /** Flattening moves whitespace only. */
  lemma FlatKeepsTheWords(s: string)
    ensures IsFlat(Flat(s)) && Words(Flat(s)) == Words(s)
  {
    FlatIsFlat(s);
    CollapsedKeepsTheWords(s);
    TrimStartKeepsTheWords(Collapsed(s));
    TrimEndKeepsTheWords(TrimStart(Collapsed(s)));
  }

  /** Clipping never exceeds its bound, cuts exactly the texts over it, leaves a
      cut text marked at the end, and clips a clipped text no further. */
  lemma ClipMeaning(s: string, max: nat)
    requires max > 0
    ensures |Clip(s, max)| <= max && IsFlat(Clip(s, max))
    ensures Clip(s, max) == Flat(s) <==> |Flat(s)| <= max
    ensures |Flat(s)| > max ==> exists n :: 0 <= n < max && Clip(s, max) == Flat(s)[..n] + "\U{2026}"
    ensures Clip(Clip(s, max), max) == Clip(s, max)
  {
    FlatIsFlat(s);
    if |Flat(s)| > max {
      PrefixIsFlat(Flat(s), max - 1);
      var front := TrimEnd(Flat(s)[..max - 1]);
      assert front == Flat(s)[..|front|];
      MarkedIsFlat(front);
    }
    FlatLeavesFlat(Clip(s, max));
  }

  lemma MarkedIsFlat(front: string)
    requires IsFlat(front)
    ensures IsFlat(front + "\U{2026}")
  {
    var t := front + "\U{2026}";
    assert forall i :: 0 <= i < |front| ==> t[i] == front[i];
  }

  // --- several notices as one ---------------------------------------------------------

  function Decimal(n: nat): (s: string)
    ensures |s| > 0
  {
    var digit := ["0123456789"[n % 10]];
    if n < 10 then digit else Decimal(n / 10) + digit
  }

  function Join(labels: seq<string>): string {
    if labels == [] then "" else if |labels| == 1 then labels[0]
    else Join(labels[..|labels| - 1]) + "; " + labels[|labels| - 1]
  }

  /** What stands between two labels. */
  lemma {:induction false} JoinMeaning(front: seq<string>, back: seq<string>)
    requires front != [] && back != []
    ensures Join(front + back) == Join(front) + "; " + Join(back)
  {
    var rest, last := back[..|back| - 1], back[|back| - 1];
    assert back == rest + [last] && front + back == front + rest + [last];
    JoinSnoc(front + rest, last);
    if rest == [] {
      assert front + rest == front && Join(back) == last;
    } else {
      JoinMeaning(front, rest);
      JoinSnoc(rest, last);
      Regrouped(Join(front), Join(rest), last);
    }
  }

  lemma Regrouped(front: string, rest: string, last: string)
    ensures front + "; " + rest + "; " + last == front + "; " + (rest + "; " + last)
  {
    Regroup(front + "; ", rest, "; ", last);
  }

  lemma Regroup(a: string, b: string, c: string, d: string)
    ensures a + b + c + d == a + (b + c + d)
  {
  }

  lemma JoinOne(words: string)
    ensures Join([words]) == words
  {
  }

  lemma JoinSnoc(labels: seq<string>, last: string)
    requires labels != []
    ensures Join(labels + [last]) == Join(labels) + "; " + last
  {
    assert (labels + [last])[..|labels|] == labels;
  }

  /** The number a numeral stands for. */
  function Value(s: string): int {
    if s == "" then 0 else 10 * Value(s[..|s| - 1]) + (s[|s| - 1] as int - '0' as int)
  }

  lemma {:induction false} DecimalReadsBack(n: nat)
    ensures Value(Decimal(n)) == n && (n > 0 ==> Decimal(n)[0] != '0')
    ensures forall i :: 0 <= i < |Decimal(n)| ==> '0' <= Decimal(n)[i] <= '9'
  {
    var digit := ["0123456789"[n % 10]];
    assert digit[0] as int - '0' as int == n % 10;
    if n < 10 {
      assert digit[..0] == "";
    } else {
      DecimalReadsBack(n / 10);
      var front := Decimal(n / 10);
      assert (front + digit)[..|front|] == front && (front + digit)[|front|] == digit[0];
    }
  }

  function Labels(notices: seq<Notice>): (r: seq<string>)
    ensures |r| == |notices|
  {
    seq(|notices|, i requires 0 <= i < |notices| => notices[i].words)
  }

  function More(rest: nat): string { if rest > 0 then "; +" + Decimal(rest) + " more" else "" }

  const CLOSING := ". Open Miorail for the details."

  predicate LeavesRoom(labels: seq<string>, rest: nat) {
    |Join(labels) + More(rest) + "."| <= MESSAGE_MAX - 30
  }

  /** The first `k` labels and the count of the rest leave room for the closing
      sentence. */
  predicate Fits(notices: seq<Notice>, k: nat)
    requires k <= |notices|
  {
    LeavesRoom(Labels(notices[..k]), |notices| - k)
  }

  function Room(notices: seq<Notice>): nat -> bool { (k: nat) => k <= |notices| && Fits(notices, k) }

  /** The last of the numbers after `k` that can be reached through ones that fit. */
  function Longest(fits: nat -> bool, k: nat, n: nat): (r: nat)
    requires k <= n
    ensures k <= r <= n
    decreases n - k
  {
    if k == n || !fits(k + 1) then k else Longest(fits, k + 1, n)
  }

  lemma {:induction false} LongestMeaning(fits: nat -> bool, k: nat, n: nat)
    requires k <= n
    ensures var r := Longest(fits, k, n);
      (forall j :: k < j <= r ==> fits(j)) && (r < n ==> !fits(r + 1))
    decreases n - k
  {
    if k < n && fits(k + 1) { LongestMeaning(fits, k + 1, n); }
  }

  /** How many labels are shown. */
  function Shown(notices: seq<Notice>): (n: nat)
    ensures n <= |notices|
  {
    Longest(Room(notices), 0, |notices|)
  }

  /** The labels shown are a prefix of the notices, the longest one in which every
      shorter prefix leaves room too. */
  lemma ShownMeaning(notices: seq<Notice>, j: nat)
    ensures 0 < j <= Shown(notices) ==> Fits(notices, j)
    ensures j == Shown(notices) + 1 <= |notices| ==> !Fits(notices, j)
  {
    LongestMeaning(Room(notices), 0, |notices|);
    assert Room(notices)(j) <==> j <= |notices| && Fits(notices, j);
  }

  function SummaryMessage(notices: seq<Notice>): string {
    var shown := Shown(notices);
    Join(Labels(notices[..shown])) + More(|notices| - shown) + CLOSING
  }

  function SummaryPath(notices: seq<Notice>): string
    requires notices != []
  {
    if forall i :: 0 <= i < |notices| ==> notices[i].path == notices[0].path then notices[0].path else "/stocks"
  }

  /** What a wallet with these notices is sent. */
  function Summary(notices: seq<Notice>): Push
    requires notices != []
  {
    if |notices| == 1 then Push(notices[0].title, notices[0].message, notices[0].path)
    else Push(Clip("Miorail: " + Decimal(|notices|) + " updates", TITLE_MAX),
              Clip(SummaryMessage(notices), MESSAGE_MAX), SummaryPath(notices))
  }

  /** Accepts labels in order until one leaves no room. */
  method ShowLabels(notices: seq<Notice>) returns (labels: seq<string>)
    ensures labels == Labels(notices[..Shown(notices)])
  {
    labels := [];
    var i := 0;
    while i < |notices|
      invariant 0 <= i <= |notices| && labels == Labels(notices[..i])
      invariant Shown(notices) == Longest(Room(notices), i, |notices|)
      decreases |notices| - i
    {
      var next := labels + [notices[i].words];
      LabelsNext(notices, i);
      assert Room(notices)(i + 1) <==> Fits(notices, i + 1);
      if !LeavesRoom(next, |notices| - |labels| - 1) { break; }
      labels := next;
      i := i + 1;
    }
  }

  lemma LabelsNext(notices: seq<Notice>, i: nat)
    requires i < |notices|
    ensures Labels(notices[..i + 1]) == Labels(notices[..i]) + [notices[i].words]
  {
  }

  method CommonPath(notices: seq<Notice>) returns (path: string)
    requires notices != []
    ensures path == SummaryPath(notices)
  {
    var first := notices[0].path;
    var paths := {first};
    for n := 1 to |notices|
      invariant first in paths && forall i :: 0 <= i < n ==> notices[i].path in paths
      invariant forall p :: p in paths ==> exists i :: 0 <= i < n && notices[i].path == p
    {
      paths := paths + {notices[n].path};
    }
    if |paths| == 1 {
      OnlyOne(paths, first);
      path := first;
    } else {
      assert paths != {first};
      path := "/stocks";
    }
  }

  lemma OnlyOne<T>(s: set<T>, x: T)
    requires |s| == 1 && x in s
    ensures s == {x}
  {
    assert |s - {x}| == 0;
  }

  ghost predicate SamePath(notices: seq<Notice>)
    requires notices != []
  {
    forall n :: n in notices ==> n.path == notices[0].path
  }

  /** Several notices are counted, told by as many labels as fit and the number of the
      others, and lead where all of them lead or else to the board. */
  ghost predicate TellsAll(notices: seq<Notice>, push: Push)
    requires notices != []
  {
    var k := Shown(notices);
    var others := if k == |notices| then "" else "; +" + Decimal(|notices| - k) + " more";
    && push.title == Clip("Miorail: " + Decimal(|notices|) + " updates", 30)
    && push.message == Clip(Join(Labels(notices[..k])) + others + ". Open Miorail for the details.", 200)
    && push.path == if SamePath(notices) then notices[0].path else "/stocks"
  }

  lemma SummaryMeaning(notices: seq<Notice>)
    requires |notices| > 1
    ensures TellsAll(notices, Summary(notices))
  {
    if SamePath(notices) {
      forall i | 0 <= i < |notices| ensures notices[i].path == notices[0].path { assert notices[i] in notices; }
    }
  }

  method Summarise(notices: seq<Notice>) returns (push: Push)
    requires notices != []
    ensures push == Summary(notices)
    ensures |notices| == 1 ==> push == Push(notices[0].title, notices[0].message, notices[0].path)
    ensures |notices| > 1 ==> TellsAll(notices, push)
  {
    if |notices| == 1 { return Push(notices[0].title, notices[0].message, notices[0].path); }
    SummaryMeaning(notices);
    var labels := ShowLabels(notices);
    var path := CommonPath(notices);
    push := Push(Clip("Miorail: " + Decimal(|notices|) + " updates", TITLE_MAX),
                 Clip(Join(labels) + More(|notices| - |labels|) + CLOSING, MESSAGE_MAX), path);
  }

  /** The message built for two or more notices stays within the limit before it is
      clipped, exactly unless no label fits and the count itself has more than 161
      digits; the room kept for the closing sentence is exactly what it adds. */
  lemma SummaryMessageFits(notices: seq<Notice>)
    requires |notices| >= 2
    ensures |SummaryMessage(notices)| <= MESSAGE_MAX <==> Shown(notices) > 0 || |Decimal(|notices|)| <= 161
  {
    var shown := Shown(notices);
    if shown > 0 {
      ShownMeaning(notices, shown);
    } else {
      assert Labels(notices[..0]) == [];
    }
  }

  /** No room is left unused: one label more, with the count of those still left, and the
      message would be over the limit. */
  lemma NoLabelIsWasted(notices: seq<Notice>)
    requires Shown(notices) < |notices|
    ensures var k := Shown(notices) + 1;
            |Join(Labels(notices[..k])) + More(|notices| - k) + CLOSING| > MESSAGE_MAX
  {
    var k := Shown(notices) + 1;
    ShownMeaning(notices, k);
    assert !LeavesRoom(Labels(notices[..k]), |notices| - k);
    ClosingRoom(Labels(notices[..k]), |notices| - k);
  }

  lemma ClosingRoom(labels: seq<string>, rest: nat)
    ensures LeavesRoom(labels, rest) <==> |Join(labels) + More(rest) + CLOSING| <= MESSAGE_MAX
  {
    var text := Join(labels) + More(rest);
    assert |text + "."| == |text| + 1 && |text + CLOSING| == |text| + 31;
  }

  lemma {:induction false} DecimalDigits(n: nat, bound: nat, digits: nat)
    requires digits > 0 && n < bound && bound == Power10(digits)
    ensures |Decimal(n)| <= digits
    decreases digits
  {
    if n >= 10 {
      DecimalDigits(n / 10, Power10(digits - 1), digits - 1);
    }
  }

  function Power10(digits: nat): nat { if digits == 0 then 1 else 10 * Power10(digits - 1) }

  /** As many notices as an array can hold: nothing is ever cut. */
  lemma SummaryIsNeverCut(notices: seq<Notice>)
    requires 2 <= |notices| < 0x1_0000_0000
    ensures Summary(notices).message == Flat(SummaryMessage(notices))
  {
    assert Power10(5) == 100000;
    assert Power10(10) == 10000000000;
    DecimalDigits(|notices|, Power10(10), 10);
    SummaryMessageFits(notices);
  }
}
