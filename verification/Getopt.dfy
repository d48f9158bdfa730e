/** What short-option scanning means: which words are options, what each call reports, and how the words
    are divided. The behaviour is that of section 12.2 of the Base Definitions volume of IEEE Std 1003.1
    with the GNU permutation. */
module GetoptSpec {

  /** A word that is not scanned for options: it does not begin with '-', or is just "-". */
  predicate NonOption(w: string) {
    w == "" || w[0] != '-' || |w| == 1
  }

  datatype Kind = Unlisted | Plain | TakesOptional | TakesRequired

  /** Where a character first stands in the option string, or its length. */
  function IndexIn(os: string, c: char): (i: nat)
    ensures i <= |os|
    ensures i < |os| ==> os[i] == c
    ensures forall k :: 0 <= k < i ==> os[k] != c
  {
    if os == "" || os[0] == c then 0 else 1 + IndexIn(os[1..], c)
  }

  /** Whether position i of the option string holds c. */
  predicate Holds(os: string, i: nat, c: char) {
    i < |os| && os[i] == c
  }

  /** How the option string lists a character; a colon is never an option. */
  function KindOf(os: string, c: char): Kind {
    var i := IndexIn(os, c);
    if i == |os| || c == ':' then Unlisted
    else if !Holds(os, i + 1, ':') then Plain
    else if Holds(os, i + 2, ':') then TakesOptional
    else TakesRequired
  }

  /** The optional argument of an option. */
  datatype Arg = NoArg | Given(text: string)

  /** What one call reports. */
  datatype Report = Option(c: char, arg: Arg) | Unknown(c: char) | Missing(c: char)

  /** One option character handled: the report, the characters of the word still to be handled,
      and whether the next word was taken as an argument. */
  datatype Step = Step(report: Report, rest: string, tookNext: bool)

  function ShortStep(os: string, text: string, next: seq<string>): (s: Step)
    requires text != ""
    ensures |s.rest| < |text| && (s.tookNext ==> s.rest == "" && next != [])
  {
    var c, rest := text[0], text[1..];
    match KindOf(os, c)
    case Unlisted => Step(Unknown(c), rest, false)
    case Plain => Step(Option(c, NoArg), rest, false)
    case TakesOptional => Step(Option(c, if rest != "" then Given(rest) else NoArg), "", false)
    case TakesRequired =>
      if rest != "" then Step(Option(c, Given(rest)), "", false)
      else if next == [] then Step(Missing(c), "", false)
      else Step(Option(c, Given(next[0])), "", true)
  }

  /** How many words an option word and its argument occupy, once its last character is handled. */
  function Taken(s: Step): nat {
    if s.tookNext then 2 else 1
  }

  /** The reports of the calls to come. `text` is what is left of the first word, if it is half handled. */
  function Reports(os: string, text: string, words: seq<string>): (r: seq<Report>)
    requires text != "" ==> words != []
    decreases |words|, if text == "" then 1 else 0, |text|
  {
    if text != "" then
      var s := ShortStep(os, text, words[1..]);
      [s.report] + if s.rest != "" then Reports(os, s.rest, words) else Reports(os, "", words[Taken(s)..])
    else if words == [] || words[0] == "--" then []
    else if NonOption(words[0]) then Reports(os, "", words[1..])
    else Reports(os, words[0][1..], words)
  }

  /** The option words with their arguments, and the "--" that ends them, in order. */
  function Options(os: string, text: string, words: seq<string>): (o: seq<string>)
    requires text != "" ==> words != []
    decreases |words|, if text == "" then 1 else 0, |text|
  {
    if text != "" then
      var s := ShortStep(os, text, words[1..]);
      if s.rest != "" then Options(os, s.rest, words) else words[..Taken(s)] + Options(os, "", words[Taken(s)..])
    else if words == [] then []
    else if words[0] == "--" then ["--"]
    else if NonOption(words[0]) then Options(os, "", words[1..])
    else Options(os, words[0][1..], words)
  }

  /** Every other word, in order. */
  function Operands(os: string, text: string, words: seq<string>): (o: seq<string>)
    requires text != "" ==> words != []
    decreases |words|, if text == "" then 1 else 0, |text|
  {
    if text != "" then
      var s := ShortStep(os, text, words[1..]);
      if s.rest != "" then Operands(os, s.rest, words) else Operands(os, "", words[Taken(s)..])
    else if words == [] then []
    else if words[0] == "--" then words[1..]
    else if NonOption(words[0]) then words[..1] + Operands(os, "", words[1..])
    else Operands(os, words[0][1..], words)
  }

  /** No word is lost or invented. */
  lemma {:induction false} WordsAreDivided(os: string, text: string, words: seq<string>)
    requires text != "" ==> words != []
    ensures multiset(Options(os, text, words)) + multiset(Operands(os, text, words)) == multiset(words)
    decreases |words|, if text == "" then 1 else 0, |text|
  {
    if text != "" {
      var s := ShortStep(os, text, words[1..]);
      if s.rest != "" {
        WordsAreDivided(os, s.rest, words);
      } else {
        WordsAreDivided(os, "", words[Taken(s)..]);
        assert words == words[..Taken(s)] + words[Taken(s)..];
      }
    } else if words == [] {
    } else if words[0] == "--" {
      assert words == ["--"] + words[1..];
    } else if NonOption(words[0]) {
      WordsAreDivided(os, "", words[1..]);
      assert words == words[..1] + words[1..];
    } else {
      WordsAreDivided(os, words[0][1..], words);
    }
  }

  // ----- scanning twice -----

  /** Whether scanning ends in an option whose required argument is not there. */
  predicate EndsMissing(os: string, text: string, words: seq<string>)
    requires text != "" ==> words != []
    decreases |words|, if text == "" then 1 else 0, |text|
  {
    if text != "" then
      var s := ShortStep(os, text, words[1..]);
      if s.rest != "" then EndsMissing(os, s.rest, words)
      else s.report.Missing? || EndsMissing(os, "", words[Taken(s)..])
    else if words == [] || words[0] == "--" then false
    else if NonOption(words[0]) then EndsMissing(os, "", words[1..])
    else EndsMissing(os, words[0][1..], words)
  }

  /** It is the last report that says so. */
  lemma {:induction false} MissingIsReportedLast(os: string, text: string, words: seq<string>)
    requires text != "" ==> words != []
    ensures var r := Reports(os, text, words);
            && (EndsMissing(os, text, words) <==> r != [] && r[|r| - 1].Missing?)
            && (forall k :: 0 <= k < |r| - 1 ==> !r[k].Missing?)
    decreases |words|, if text == "" then 1 else 0, |text|
  {
    if text != "" {
      var s := ShortStep(os, text, words[1..]);
      if s.rest != "" {
        MissingIsReportedLast(os, s.rest, words);
        assert Reports(os, s.rest, words) != [];
      } else {
        MissingIsReportedLast(os, "", words[Taken(s)..]);
      }
    } else if words == [] || words[0] == "--" {
    } else if NonOption(words[0]) {
      MissingIsReportedLast(os, "", words[1..]);
    } else {
      MissingIsReportedLast(os, words[0][1..], words);
    }
  }

  /** Whether scanning is stopped by "--". */
  predicate EndsByDashes(os: string, text: string, words: seq<string>)
    requires text != "" ==> words != []
    decreases |words|, if text == "" then 1 else 0, |text|
  {
    if text != "" then
      var s := ShortStep(os, text, words[1..]);
      if s.rest != "" then EndsByDashes(os, s.rest, words) else EndsByDashes(os, "", words[Taken(s)..])
    else if words == [] then false
    else if words[0] == "--" then true
    else if NonOption(words[0]) then EndsByDashes(os, "", words[1..])
    else EndsByDashes(os, words[0][1..], words)
  }

  lemma {:induction false} FirstOption(os: string, text: string, words: seq<string>)
    requires text != "" && words != []
    ensures var o := Options(os, text, words);
            o != [] && o[0] == words[0]
    decreases |text|
  {
    var s := ShortStep(os, text, words[1..]);
    if s.rest != "" {
      FirstOption(os, s.rest, words);
    }
  }

  /** Words that are empty, just "-", or do not begin with '-' are operands. */
  lemma {:induction false} OnlyOperands(os: string, x: seq<string>)
    requires forall w :: w in x ==> w == "" || w == "-" || w[0] != '-'
    ensures Options(os, "", x) == [] && Operands(os, "", x) == x
  {
    if x != [] {
      assert NonOption(x[0]);
      OnlyOperands(os, x[1..]);
      assert x == x[..1] + x[1..];
    }
  }

  /** Unless "--" ended the scan, no operand looks like an option: each is empty, just "-", or does not begin
      with '-'. */
  lemma {:induction false} OperandsAreNonOptions(os: string, text: string, words: seq<string>)
    requires text != "" ==> words != []
    requires !EndsByDashes(os, text, words)
    ensures forall w :: w in Operands(os, text, words) ==> NonOption(w) && (w == "" || w == "-" || w[0] != '-')
    decreases |words|, if text == "" then 1 else 0, |text|
  {
    if text != "" {
      var s := ShortStep(os, text, words[1..]);
      if s.rest != "" {
        OperandsAreNonOptions(os, s.rest, words);
      } else {
        OperandsAreNonOptions(os, "", words[Taken(s)..]);
      }
    } else if words == [] || words[0] == "--" {
    } else if NonOption(words[0]) {
      OperandsAreNonOptions(os, "", words[1..]);
    } else {
      OperandsAreNonOptions(os, words[0][1..], words);
    }
  }

  /** A word that is done with in one step, its argument there, is done with in the same way in front of others. */
  lemma StepAgain(os: string, text: string, words: seq<string>, x: seq<string>)
    requires text != "" && words != []
    requires var s := ShortStep(os, text, words[1..]);
             s.rest == "" && !s.report.Missing?
    ensures var n, o := Taken(ShortStep(os, text, words[1..])), Options(os, text, words);
            var later := Options(os, "", words[n..]);
            && o == words[..n] + later && o + x != []
            && Options(os, text, o + x) == o[..n] + Options(os, "", later + x)
            && Operands(os, text, o + x) == Operands(os, "", later + x)
            && EndsMissing(os, text, words) == EndsMissing(os, "", words[n..])
            && EndsByDashes(os, text, words) == EndsByDashes(os, "", words[n..])
  {
    hide KindOf;
    var s, o := ShortStep(os, text, words[1..]), Options(os, text, words);
    var n := Taken(s);
    var later := Options(os, "", words[n..]);
    assert o == words[..n] + later;
    assert (o + x)[..n] == words[..n] && (o + x)[n..] == later + x;
    SameStep(os, text, words, (o + x)[1..]);
  }

  lemma SameStep(os: string, text: string, words: seq<string>, next: seq<string>)
    requires text != "" && words != []
    requires var s := ShortStep(os, text, words[1..]);
             !s.report.Missing? && (s.tookNext ==> next != [] && next[0] == words[1])
    ensures ShortStep(os, text, next) == ShortStep(os, text, words[1..])
  {
    hide KindOf;
  }

  /** An option that lacks its argument takes the first of the words that come behind it. */
  lemma MissingAgain(os: string, text: string, words: seq<string>, x: seq<string>)
    requires text != "" && words != [] && ShortStep(os, text, words[1..]).report.Missing?
    requires EndsByDashes(os, text, words) || forall w :: w in x ==> NonOption(w)
    ensures |words| == 1 && Options(os, text, words) == words && EndsMissing(os, text, words) && !EndsByDashes(os, text, words)
    ensures Options(os, text, words + x) == words + if x == [] then [] else x[..1]
    ensures Operands(os, text, words + x) == if x == [] then [] else x[1..]
  {
    hide KindOf;
    assert words[1..] == [] && words[..1] == words;
    assert words + [] == words;
    if x != [] {
      forall w | w in x[1..]
        ensures w == "" || w == "-" || w[0] != '-'
      {
        assert NonOption(w);
      }
      assert (words + x)[1..] == x && (words + x)[2..] == x[1..] && (words + x)[..2] == words + x[..1];
      OnlyOperands(os, x[1..]);
    }
  }

  /** The option words in front of other operands scan to themselves, but for a missing argument, which
      then takes the first operand. */
  lemma {:induction false} DividedAgain(os: string, text: string, words: seq<string>, x: seq<string>)
    requires text != "" ==> words != []
    requires EndsByDashes(os, text, words) || forall w :: w in x ==> NonOption(w)
    ensures text != "" ==> Options(os, text, words) + x != []
    ensures EndsMissing(os, text, words) ==> !EndsByDashes(os, text, words)
    ensures var o, taken := Options(os, text, words), EndsMissing(os, text, words) && x != [];
            && Options(os, text, o + x) == (if taken then o + x[..1] else o)
            && Operands(os, text, o + x) == (if taken then x[1..] else x)
    decreases |words|, if text == "" then 1 else 0, |text|
  {
    var o := Options(os, text, words);
    if text != "" {
      FirstOption(os, text, words);
      var s := ShortStep(os, text, words[1..]);
      if s.rest != "" {
        DividedAgain(os, s.rest, words, x);
        assert ShortStep(os, text, (o + x)[1..]) == s;
      } else if s.report.Missing? {
        MissingAgain(os, text, words, x);
      } else {
        StepAgain(os, text, words, x);
        DividedAgain(os, "", words[Taken(s)..], x);
        ThenOneMore(words[..Taken(s)], Options(os, "", words[Taken(s)..]), x);
      }
    } else if words == [] {
      assert o + x == x;
      OnlyOperands(os, x);
    } else if words[0] == "--" {
      assert (["--"] + x)[1..] == x;
    } else if NonOption(words[0]) {
      DividedAgain(os, "", words[1..], x);
    } else {
      DividedAgain(os, words[0][1..], words, x);
      FirstOption(os, words[0][1..], words);
    }
  }

  lemma ThenOneMore(a: seq<string>, b: seq<string>, x: seq<string>)
    ensures x != [] ==> a + (b + x[..1]) == a + b + x[..1]
  {
  }

  /** Scanning the divided words again divides them in the same way, except in one case: an option at the
      end lacked its argument, and there are operands for it to take. */
  lemma ScanningTwice(os: string, words: seq<string>)
    ensures var o, x := Options(os, "", words), Operands(os, "", words);
            Options(os, "", o + x) == o && Operands(os, "", o + x) == x
            <==> !(EndsMissing(os, "", words) && x != [])
    ensures var o, x := Options(os, "", words), Operands(os, "", words);
            EndsMissing(os, "", words) && x != [] ==> Options(os, "", o + x) == o + x[..1] && Operands(os, "", o + x) == x[1..]
  {
    if !EndsByDashes(os, "", words) {
      OperandsAreNonOptions(os, "", words);
    }
    DividedAgain(os, "", words, Operands(os, "", words));
  }

  /** The words x -a, where -a needs an argument: the first scan leaves -a x, the second takes x for it. */
  lemma ScanningChanges()
    ensures Options("a:", "", ["x", "-a"]) == ["-a"] && Operands("a:", "", ["x", "-a"]) == ["x"]
    ensures Options("a:", "", ["-a", "x"]) == ["-a", "x"] && Operands("a:", "", ["-a", "x"]) == []
  {
    var words := ["x", "-a"];
    assert words[1..] == ["-a"] && ["-a"][1..] == [] && words[..1] == ["x"];
    assert ["-a", "x"][1..] == ["x"] && ["-a", "x"][2..] == [] && ["-a", "x"][..2] == ["-a", "x"];
    assert "-a"[1..] == "a" && "a"[1..] == "";
    assert IndexIn("a:", 'a') == 0;
  }
}

/** The scanner itself, src/fgcom_getopt.c, called through getopt (no long options). */
module Getopt {
  import opened GetoptSpec

  // ----- exchanging two segments -----

  /** A sequence with the segments [b, m) and [m, t) exchanged. */
  function Exchanged<T>(s: seq<T>, b: nat, m: nat, t: nat): (r: seq<T>)
    requires b <= m <= t <= |s|
    ensures |r| == |s|
  {
    s[..b] + s[m..t] + s[b..m] + s[t..]
  }

  /** Two blocks of equal length swapped, element by element. */
  method SwapBlocks<T>(a: array<T>, p: nat, q: nat, len: nat)
    requires p + len <= q && q + len <= a.Length
    modifies a
    ensures a[..] == Swapped(old(a[..]), p, q, len)
  {
    hide Swapped;
    var i := 0;
    while i < len
      invariant 0 <= i <= len
      invariant forall k :: p <= k < p + i ==> a[k] == old(a[k - p + q])
      invariant forall k :: q <= k < q + i ==> a[k] == old(a[k - q + p])
      invariant forall k :: 0 <= k < a.Length && !(p <= k < p + i) && !(q <= k < q + i) ==> a[k] == old(a[k])
    {
      var tem := a[p + i];
      a[p + i] := a[q + i];
      a[q + i] := tem;
      i := i + 1;
    }
    ghost var s := old(a[..]);
    forall k | 0 <= k < a.Length
      ensures a[k] == Swapped(s, p, q, len)[k]
    {
      SwappedAt(s, p, q, len, k);
    }
  }

  function Swapped<T>(s: seq<T>, p: nat, q: nat, len: nat): (r: seq<T>)
    requires p + len <= q && q + len <= |s|
    ensures |r| == |s|
  {
    s[..p] + s[q..q + len] + s[p + len..q] + s[p..p + len] + s[q + len..]
  }

  lemma SwappedAt<T>(s: seq<T>, p: nat, q: nat, len: nat, k: nat)
    requires p + len <= q && q + len <= |s| && k < |s|
    ensures Swapped(s, p, q, len)[k]
            == if p <= k < p + len then s[k - p + q] else if q <= k < q + len then s[k - q + p] else s[k]
  {
  }

  /** Where the element at k comes from. */
  function Source(b: nat, m: nat, t: nat, k: nat): nat
    requires b <= m <= t
  {
    if b <= k < b + (t - m) then k - b + m else if b + (t - m) <= k < t then k - (t - m) else k
  }

  lemma ExchangedAt<T>(s: seq<T>, b: nat, m: nat, t: nat, k: nat)
    requires b <= m <= t <= |s| && k < |s|
    ensures Source(b, m, t, k) < |s| && Exchanged(s, b, m, t)[k] == s[Source(b, m, t, k)]
  {
  }

  lemma ExchangeBelowAt<T>(s: seq<T>, b: nat, m: nat, t: nat, len: nat, k: nat)
    requires b <= m <= t <= |s| && len == m - b <= t - m && k < |s|
    ensures Exchanged(Swapped(s, b, t - len, len), b, m, t - len)[k] == Exchanged(s, b, m, t)[k]
  {
    hide Exchanged, Swapped;
    ExchangedAt(Swapped(s, b, t - len, len), b, m, t - len, k);
    ExchangedAt(s, b, m, t, k);
    SwappedAt(s, b, t - len, len, Source(b, m, t - len, k));
  }

  lemma ExchangeAboveAt<T>(s: seq<T>, b: nat, m: nat, t: nat, len: nat, k: nat)
    requires b <= m <= t <= |s| && len == t - m <= m - b && k < |s|
    ensures Exchanged(Swapped(s, b, m, len), b + len, m, t)[k] == Exchanged(s, b, m, t)[k]
  {
    hide Exchanged, Swapped;
    ExchangedAt(Swapped(s, b, m, len), b + len, m, t, k);
    ExchangedAt(s, b, m, t, k);
    SwappedAt(s, b, m, len, Source(b + len, m, t, k));
  }

  /** With the shorter segment below: put it at the far end, and the longer one still has to be exchanged
      with what came down. */
  lemma ExchangeBelow<T>(s: seq<T>, b: nat, m: nat, t: nat, len: nat)
    requires b <= m <= t <= |s| && len == m - b <= t - m
    ensures Exchanged(Swapped(s, b, t - len, len), b, m, t - len) == Exchanged(s, b, m, t)
  {
    hide Exchanged, Swapped;
    forall k | 0 <= k < |s|
      ensures Exchanged(Swapped(s, b, t - len, len), b, m, t - len)[k] == Exchanged(s, b, m, t)[k]
    {
      ExchangeBelowAt(s, b, m, t, len, k);
    }
  }

  /** With the shorter segment above: put it at the bottom. */
  lemma ExchangeAbove<T>(s: seq<T>, b: nat, m: nat, t: nat, len: nat)
    requires b <= m <= t <= |s| && len == t - m <= m - b
    ensures Exchanged(Swapped(s, b, m, len), b + len, m, t) == Exchanged(s, b, m, t)
  {
    hide Exchanged, Swapped;
    forall k | 0 <= k < |s|
      ensures Exchanged(Swapped(s, b, m, len), b + len, m, t)[k] == Exchanged(s, b, m, t)[k]
    {
      ExchangeAboveAt(s, b, m, t, len, k);
    }
  }

  /** The loop of exchange: segments [bottom, middle) and [middle, top) trade places, in place. */
  method ExchangeSegments<T>(a: array<T>, b: nat, m: nat, t: nat)
    requires b <= m <= t <= a.Length
    modifies a
    ensures a[..] == Exchanged(old(a[..]), b, m, t)
  {
    hide Exchanged, Swapped;
    var bottom, middle, top := b, m, t;
    while top > middle && middle > bottom
      invariant 0 <= bottom <= middle <= top <= a.Length
      invariant Exchanged(a[..], bottom, middle, top) == Exchanged(old(a[..]), b, m, t)
      decreases top - bottom
    {
      if top - middle > middle - bottom {
        var len := middle - bottom;
        ExchangeBelow(a[..], bottom, middle, top, len);
        SwapBlocks(a, bottom, top - len, len);
        top := top - len;
      } else {
        var len := top - middle;
        ExchangeAbove(a[..], bottom, middle, top, len);
        SwapBlocks(a, bottom, middle, len);
        bottom := bottom + len;
      }
    }
    NothingToExchange(a[..], bottom, middle, top);
  }

  lemma NothingToExchange<T>(s: seq<T>, b: nat, m: nat, t: nat)
    requires b <= m <= t <= |s| && (m == t || b == m)
    ensures Exchanged(s, b, m, t) == s
  {
  }

  // ----- where a scan stands -----

  /** The words as they now stand, with the segments the scanner keeps track of: skipped operands in
      [first, last), options handled since in [last, optind), and `text`, what is left of word optind. */
  datatype Scan = Scan(words: seq<string>, first: nat, last: nat, optind: nat, text: string)

  /** The words from `start` on, in segments: options in their final place, skipped operands, options
      handled since, and the words to come. */
  datatype Segments = Segments(done: seq<string>, skipped: seq<string>, later: seq<string>,
                               rest: seq<string>, text: string)

  ghost predicate InBounds(start: nat, sc: Scan) {
    && start <= sc.first <= sc.last <= sc.optind <= |sc.words|
    && (sc.text != "" ==> sc.optind < |sc.words|)
  }

  ghost function SegmentsOf(start: nat, sc: Scan): Segments
    requires InBounds(start, sc)
  {
    Segments(sc.words[start..sc.first], sc.words[sc.first..sc.last], sc.words[sc.last..sc.optind],
             sc.words[sc.optind..], sc.text)
  }

  /** The segments, and what has been reported, account for all the words. */
  ghost predicate Going(os: string, all: seq<string>, seen: seq<Report>, g: Segments) {
    && (g.text != "" ==> g.rest != [])
    && Reports(os, "", all) == seen + Reports(os, g.text, g.rest)
    && Options(os, "", all) == g.done + g.later + Options(os, g.text, g.rest)
    && Operands(os, "", all) == g.skipped + Operands(os, g.text, g.rest)
  }

  /** The scan is on its way from `orig`, whose words from `start` on are to be divided, and has
      reported `seen`. */
  ghost predicate OnTheWay(os: string, orig: seq<string>, start: nat, seen: seq<Report>, sc: Scan) {
    && InBounds(start, sc)
    && |sc.words| == |orig| && sc.words[..start] == orig[..start]
    && Going(os, orig[start..], seen, SegmentsOf(start, sc))
  }

  /** The division is done: the options, then the operands, and optind at the first operand. */
  ghost predicate Divided(os: string, orig: seq<string>, start: nat, seen: seq<Report>, words: seq<string>, optind: nat) {
    && start <= |orig|
    && words == orig[..start] + Options(os, "", orig[start..]) + Operands(os, "", orig[start..])
    && optind == start + |Options(os, "", orig[start..])|
    && seen == Reports(os, "", orig[start..])
  }

  lemma Bounds(os: string, orig: seq<string>, start: nat, seen: seq<Report>, sc: Scan)
    requires OnTheWay(os, orig, start, seen, sc)
    ensures start <= sc.first <= sc.last <= sc.optind <= |sc.words| == |orig|
    ensures sc.text != "" ==> sc.optind < |sc.words|
  {
  }

  lemma ScanStarts(os: string, orig: seq<string>, start: nat)
    requires start <= |orig|
    ensures OnTheWay(os, orig, start, [], Scan(orig, start, start, start, ""))
  {
    hide Reports, Options, Operands;
  }

  lemma ExchangedSegments(start: nat, sc: Scan)
    requires InBounds(start, sc)
    ensures var g := SegmentsOf(start, sc);
            var words := Exchanged(sc.words, sc.first, sc.last, sc.optind);
            var after := Scan(words, sc.first + (sc.optind - sc.last), sc.optind, sc.optind, sc.text);
            && InBounds(start, after) && words[..start] == sc.words[..start]
            && SegmentsOf(start, after) == Segments(g.done + g.later, g.skipped, [], g.rest, g.text)
  {
    var words := Exchanged(sc.words, sc.first, sc.last, sc.optind);
    var first := sc.first + (sc.optind - sc.last);
    assert words[start..first] == sc.words[start..sc.first] + sc.words[sc.last..sc.optind];
    assert words[first..sc.optind] == sc.words[sc.first..sc.last];
  }

  /** Skipped operands change places with the options handled after them. */
  lemma ExchangeKeeps(os: string, orig: seq<string>, start: nat, seen: seq<Report>, sc: Scan)
    requires OnTheWay(os, orig, start, seen, sc)
    ensures var words := Exchanged(sc.words, sc.first, sc.last, sc.optind);
            OnTheWay(os, orig, start, seen,
                     Scan(words, sc.first + (sc.optind - sc.last), sc.optind, sc.optind, sc.text))
  {
    hide Reports, Options, Operands, Exchanged, SegmentsOf;
    ExchangedSegments(start, sc);
    var g := SegmentsOf(start, sc);
    assert g.done + g.later + [] == g.done + g.later;
  }

  /** With no operands skipped, the options handled are simply behind. */
  lemma AbsorbKeeps(os: string, orig: seq<string>, start: nat, seen: seq<Report>, sc: Scan)
    requires OnTheWay(os, orig, start, seen, sc) && sc.first == sc.last
    ensures OnTheWay(os, orig, start, seen, sc.(first := sc.optind, last := sc.optind))
  {
    hide Reports, Options, Operands;
    var g := SegmentsOf(start, sc);
    var h := SegmentsOf(start, sc.(first := sc.optind, last := sc.optind));
    assert h.done + h.later == g.done + g.later;
  }

  /** The next n words joined to a segment. */
  lemma NextSegments(start: nat, sc: Scan, n: nat)
    requires InBounds(start, sc) && sc.optind + n <= |sc.words|
    ensures var g, to := SegmentsOf(start, sc), sc.optind + n;
            && sc.words[sc.last..to] == g.later + g.rest[..n]
            && sc.words[to..] == g.rest[n..]
            && (sc.last == sc.optind ==> sc.words[sc.first..to] == g.skipped + g.rest[..n])
  {
  }

  /** An operand is skipped. */
  lemma SkipKeeps(os: string, orig: seq<string>, start: nat, seen: seq<Report>, sc: Scan)
    requires OnTheWay(os, orig, start, seen, sc) && sc.text == "" && sc.last == sc.optind < |sc.words|
    requires NonOption(sc.words[sc.optind])
    ensures OnTheWay(os, orig, start, seen, sc.(last := sc.optind + 1, optind := sc.optind + 1))
  {
    hide Reports, Options, Operands, NonOption;
    var rest := sc.words[sc.optind..];
    assert rest[0] == sc.words[sc.optind];
    OperandWord(os, rest);
    NextSegments(start, sc, 1);
    var g := SegmentsOf(start, sc);
    assert g.skipped + (rest[..1] + Operands(os, "", rest[1..])) == g.skipped + rest[..1] + Operands(os, "", rest[1..]);
  }

  /** What the three divisions make of a first word. */
  lemma OperandWord(os: string, rest: seq<string>)
    requires rest != [] && NonOption(rest[0])
    ensures Reports(os, "", rest) == Reports(os, "", rest[1..])
    ensures Options(os, "", rest) == Options(os, "", rest[1..])
    ensures Operands(os, "", rest) == rest[..1] + Operands(os, "", rest[1..])
  {
  }

  lemma DashesWord(os: string, rest: seq<string>)
    requires rest != [] && rest[0] == "--"
    ensures Reports(os, "", rest) == [] && Options(os, "", rest) == ["--"] && Operands(os, "", rest) == rest[1..]
  {
  }

  lemma NoWords(os: string)
    ensures Reports(os, "", []) == [] && Options(os, "", []) == [] && Operands(os, "", []) == []
  {
  }

  /** The scan enters an option word. */
  lemma EnterKeeps(os: string, orig: seq<string>, start: nat, seen: seq<Report>, sc: Scan)
    requires OnTheWay(os, orig, start, seen, sc) && sc.text == "" && sc.optind < |sc.words|
    requires !NonOption(sc.words[sc.optind]) && sc.words[sc.optind] != "--"
    ensures OnTheWay(os, orig, start, seen, sc.(text := sc.words[sc.optind][1..]))
  {
    var rest := sc.words[sc.optind..];
    var text := sc.words[sc.optind][1..];
    assert rest[0] == sc.words[sc.optind];
    assert Reports(os, "", rest) == Reports(os, text, rest);
    assert Options(os, "", rest) == Options(os, text, rest);
    assert Operands(os, "", rest) == Operands(os, text, rest);
    hide Reports, Options, Operands;
  }

  /** The step taken on the next option character. */
  ghost function NextStep(os: string, sc: Scan): Step
    requires sc.text != "" && sc.optind < |sc.words|
  {
    ShortStep(os, sc.text, sc.words[sc.optind + 1..])
  }

  ghost function AfterStep(os: string, sc: Scan): Scan
    requires sc.text != "" && sc.optind < |sc.words|
  {
    var s := NextStep(os, sc);
    sc.(text := s.rest, optind := if s.rest != "" then sc.optind else sc.optind + Taken(s))
  }

  /** What a step leaves of the three divisions. */
  lemma OneStep(os: string, text: string, rest: seq<string>)
    requires text != "" && rest != []
    ensures var s := ShortStep(os, text, rest[1..]);
            && 1 <= Taken(s) <= |rest|
            && Reports(os, text, rest)
               == [s.report] + (if s.rest != "" then Reports(os, s.rest, rest) else Reports(os, "", rest[Taken(s)..]))
            && (s.rest != "" ==> Options(os, text, rest) == Options(os, s.rest, rest)
                                 && Operands(os, text, rest) == Operands(os, s.rest, rest))
            && (s.rest == "" ==> Options(os, text, rest) == rest[..Taken(s)] + Options(os, "", rest[Taken(s)..])
                                 && Operands(os, text, rest) == Operands(os, "", rest[Taken(s)..]))
  {
    hide KindOf;
  }

  lemma GoingOn(os: string, all: seq<string>, seen: seq<Report>, g: Segments)
    requires Going(os, all, seen, g) && g.text != ""
    ensures var s := ShortStep(os, g.text, g.rest[1..]);
            && Taken(s) <= |g.rest|
            && Going(os, all, seen + [s.report],
                     if s.rest != "" then g.(text := s.rest)
                     else g.(text := "", later := g.later + g.rest[..Taken(s)], rest := g.rest[Taken(s)..]))
  {
    hide Reports, Options, Operands, ShortStep, Taken;
    OneStep(os, g.text, g.rest);
  }

  /** One option character is handled and reported. */
  lemma StepKeeps(os: string, orig: seq<string>, start: nat, seen: seq<Report>, sc: Scan)
    requires OnTheWay(os, orig, start, seen, sc) && sc.text != ""
    ensures OnTheWay(os, orig, start, seen + [NextStep(os, sc).report], AfterStep(os, sc))
  {
    hide Reports, Options, Operands, ShortStep, Going;
    var g := SegmentsOf(start, sc);
    assert g.text != "" by { GoingText(os, orig[start..], seen, g); }
    GoingOn(os, orig[start..], seen, g);
    assert g.rest[1..] == sc.words[sc.optind + 1..];
    NextSegments(start, sc, Taken(NextStep(os, sc)));
  }

  lemma GoingText(os: string, all: seq<string>, seen: seq<Report>, g: Segments)
    requires Going(os, all, seen, g)
    ensures g.text != "" ==> g.rest != []
  {
  }

  /** A segment followed by one word, exchanged. */
  lemma ExchangedWithOne<T>(s: seq<T>, b: nat, m: nat)
    requires b <= m < |s|
    ensures Exchanged(s, b, m, m + 1) == s[..b] + [s[m]] + s[b..m] + s[m + 1..]
  {
  }

  /** "--" ends the scan: it goes in front of the skipped operands, and what follows it are operands. */
  lemma DashesEnd(os: string, orig: seq<string>, start: nat, seen: seq<Report>, sc: Scan)
    requires OnTheWay(os, orig, start, seen, sc) && sc.text == "" && sc.last == sc.optind < |sc.words|
    requires sc.words[sc.optind] == "--"
    ensures Divided(os, orig, start, seen, Exchanged(sc.words, sc.first, sc.last, sc.optind + 1), sc.first + 1)
  {
    hide Reports, Options, Operands, Exchanged;
    var at := sc.optind;
    var rest := sc.words[at..];
    assert rest[0] == "--";
    DashesWord(os, rest);
    var g := SegmentsOf(start, sc);
    EndWords(sc.words, start, sc.first, at);
    var all := orig[start..];
    assert Options(os, "", all) == g.done + ["--"];
    assert Operands(os, "", all) == g.skipped + sc.words[at + 1..];
    ExchangedWithOne(sc.words, sc.first, at);
    assert orig[..start] + (g.done + ["--"]) + (g.skipped + sc.words[at + 1..])
        == (orig[..start] + g.done) + ["--"] + g.skipped + sc.words[at + 1..];
  }

  lemma EndWords(words: seq<string>, start: nat, first: nat, at: nat)
    requires start <= first <= at <= |words|
    ensures words[..first] == words[..start] + words[start..first]
    ensures at < |words| ==> words[at..][1..] == words[at + 1..]
    ensures words[at..at] == [] && words[start..first] + [] == words[start..first]
  {
  }

  /** So does the end of the words. */
  lemma WordsEnd(os: string, orig: seq<string>, start: nat, seen: seq<Report>, sc: Scan)
    requires OnTheWay(os, orig, start, seen, sc) && sc.text == "" && sc.last == sc.optind == |sc.words|
    ensures Divided(os, orig, start, seen, sc.words, sc.first)
  {
    hide Reports, Options, Operands;
    var at := sc.optind;
    assert sc.words[at..] == [];
    EndWords(sc.words, start, sc.first, at);
    NoWords(os);
    assert sc.words == sc.words[..sc.first] + sc.words[sc.first..at];
  }

  // ----- the scanner -----

  datatype Ordering = RequireOrder | Permute | ReturnInOrder

  /** How operands are treated, from the first option string. */
  function OrderingFor(os: string, posixlyCorrect: bool): Ordering {
    if Holds(os, 0, '-') then ReturnInOrder
    else if Holds(os, 0, '+') || posixlyCorrect then RequireOrder
    else Permute
  }

  /** The option string without the character that chose the ordering. */
  function Stripped(os: string): string {
    if Holds(os, 0, '-') || Holds(os, 0, '+') then os[1..] else os
  }

  /** The extension "W;" is not part of this model. */
  predicate NoLongW(os: string) {
    !Holds(os, IndexIn(os, 'W') + 1, ';')
  }

  /** The value returned for a report. */
  function CodeOf(os: string, r: Report): (c: int)
    ensures c != -1
  {
    match r
    case Option(c, _) => c as int
    case Unknown(_) => '?' as int
    case Missing(_) => if Holds(os, 0, ':') then ':' as int else '?' as int
  }

  /** Where the option string lists a character for the first time. */
  ghost predicate FirstAt(os: string, i: int, c: char) {
    0 <= i < |os| && os[i] == c && c !in os[..i]
  }

  /** What a call returns for a report, and what the report means: a listed option gives its own character,
      without an argument where no colon follows it, and with one where just one colon does; a character that is
      not listed, or is a colon, gives '?'; a missing argument of an option with just one colon gives ':' where
      the option string begins with one, and '?' otherwise. */
  ghost predicate Returned(os: string, r: Report, c: int) {
    match r
    case Option(ch, arg) =>
      && c == ch as int && ch != ':' && ch in os
      && forall i :: FirstAt(os, i, ch) ==>
           if i + 1 < |os| && os[i + 1] == ':' then arg.Given? || (i + 2 < |os| && os[i + 2] == ':') else arg == NoArg
    case Unknown(ch) => c == '?' as int && (ch == ':' || ch !in os)
    case Missing(ch) =>
      && c == (if |os| > 0 && os[0] == ':' then ':' as int else '?' as int) && ch != ':' && ch in os
      && forall i :: FirstAt(os, i, ch) ==> i + 1 < |os| && os[i + 1] == ':' && !(i + 2 < |os| && os[i + 2] == ':')
  }

  lemma ReportReturned(os: string, text: string, next: seq<string>)
    requires text != ""
    ensures var r := ShortStep(os, text, next).report;
            Returned(os, r, CodeOf(os, r))
  {
    hide ShortStep, IndexIn, FirstAt;
    ShortStepIs(os, text, next);
    FirstIndex(os, text[0]);
  }

  lemma FirstIndex(os: string, c: char)
    ensures IndexIn(os, c) < |os| <==> c in os
    ensures forall i :: FirstAt(os, i, c) ==> i == IndexIn(os, c)
  {
    hide IndexIn;
    var k := IndexIn(os, c);
    forall i | FirstAt(os, i, c)
      ensures i == k
    {
      assert forall q :: 0 <= q < i ==> os[q] == os[..i][q];
    }
  }

  /** One option character, with the place where the option string first lists it. */
  lemma ListedStep(os: string, text: string, next: seq<string>, i: int)
    requires text != ""
    ensures text[0] == ':' || text[0] !in os ==> ShortStep(os, text, next) == Step(Unknown(text[0]), text[1..], false)
    ensures FirstAt(os, i, text[0]) && text[0] != ':' ==>
              ShortStep(os, text, next) ==
              if !(i + 1 < |os| && os[i + 1] == ':') then Step(Option(text[0], NoArg), text[1..], false)
              else if |text| > 1 then Step(Option(text[0], Given(text[1..])), "", false)
              else if i + 2 < |os| && os[i + 2] == ':' then Step(Option(text[0], NoArg), "", false)
              else if next == [] then Step(Missing(text[0]), "", false)
              else Step(Option(text[0], Given(next[0])), "", true)
  {
    hide ShortStep, IndexIn;
    ShortStepIs(os, text, next);
    FirstIndex(os, text[0]);
  }

  /** What one call finds when operands are not permuted. */
  datatype Outcome = End(skipped: nat) | Operand(word: string) | Handled(step: Step)

  function NextInOrder(os: string, stops: bool, text: string, words: seq<string>): Outcome
    requires text != "" ==> words != []
  {
    if text != "" then Handled(ShortStep(os, text, words[1..]))
    else if words == [] then End(0)
    else if words[0] == "--" then End(1)
    else if !NonOption(words[0]) then Handled(ShortStep(os, words[0][1..], words[1..]))
    else if stops then End(0)
    else Operand(words[0])
  }

  lemma InOrderAt(os: string, stops: bool, argv: seq<string>, at: nat)
    requires at <= |argv|
    ensures NextInOrder(os, stops, "", argv[at..]) ==
            if at == |argv| then End(0)
            else if argv[at] == "--" then End(1)
            else if !NonOption(argv[at]) then Handled(ShortStep(os, argv[at][1..], argv[at + 1..]))
            else if stops then End(0)
            else Operand(argv[at])
  {
    if at < |argv| {
      assert argv[at..][1..] == argv[at + 1..];
    }
  }

  lemma InOrderWithin(os: string, stops: bool, text: string, argv: seq<string>, at: nat)
    requires at < |argv| && text != ""
    ensures NextInOrder(os, stops, text, argv[at..]) == Handled(ShortStep(os, text, argv[at + 1..]))
  {
    assert argv[at..][1..] == argv[at + 1..];
  }

  function Min(a: int, b: int): int {
    if a < b then a else b
  }

  class Scanner {
    const argv: array<string>
    var optind: nat
    var nextchar: string   // "" also where the source has a null pointer
    var optarg: Arg
    var optopt: char
    var firstNonopt: nat
    var lastNonopt: nat
    var ordering: Ordering
    var initialized: bool
    ghost var start: nat
    ghost var orig: seq<string>
    ghost var seen: seq<Report>

    constructor (words: array<string>)
      ensures argv == words && optind == 1 && !initialized
    {
      argv := words;
      optind := 1;
      nextchar := "";
      optarg := NoArg;
      optopt := '?';
      firstNonopt, lastNonopt, ordering, initialized := 0, 0, Permute, false;
    }

    /** Whether the next call begins a new scan. */
    predicate Begins()
      reads this
    {
      optind == 0 || !initialized
    }

    ghost function State(): Scan
      reads this, argv
    {
      Scan(argv[..], Min(firstNonopt, optind), Min(lastNonopt, optind), optind, nextchar)
    }

    ghost predicate Valid(os: string)
      reads this, argv
    {
      && !Begins() && 1 <= start && optind <= argv.Length
      && (nextchar != "" ==> optind < argv.Length && firstNonopt <= optind && lastNonopt <= optind)
      && (ordering == Permute ==> OnTheWay(os, orig, start, seen, State()))
      && (ordering != Permute ==> State().first == State().last)
    }

    /** What a call needs: to begin a scan, or to go on with one. */
    ghost predicate Ready(os: string)
      reads this, argv
    {
      && NoLongW(os) && optind <= argv.Length
      && (!Begins() && argv.Length > 0 ==> Valid(os))
    }

    // The scan a call belongs to.

    ghost function Words(): seq<string>
      reads this, argv
    {
      if Begins() then argv[..] else orig
    }

    ghost function From(): nat
      reads this
    {
      if !Begins() then start else if optind == 0 then 1 else optind
    }

    ghost function Past(): seq<Report>
      reads this
    {
      if Begins() then [] else seen
    }

    function Text(): string
      reads this
    {
      if Begins() then "" else nextchar
    }

    function OrderingNow(os: string, posixlyCorrect: bool): Ordering
      reads this
    {
      if Begins() then OrderingFor(os, posixlyCorrect) else ordering
    }

    function OptionsNow(os: string): string
      reads this
    {
      if Begins() then Stripped(os) else os
    }

    /** exchange: the operands [firstNonopt, lastNonopt) and the options [lastNonopt, optind) trade places. */
    method Exchange()
      requires firstNonopt <= lastNonopt <= optind <= argv.Length
      modifies this`firstNonopt, this`lastNonopt, argv
      ensures argv[..] == Exchanged(old(argv[..]), old(firstNonopt), old(lastNonopt), optind)
      ensures firstNonopt == old(firstNonopt) + (optind - old(lastNonopt)) && lastNonopt == optind
    {
      ExchangeSegments(argv, firstNonopt, lastNonopt, optind);
      firstNonopt := firstNonopt + (optind - lastNonopt);
      lastNonopt := optind;
    }

    /** _getopt_initialize */
    method Initialize(os: string, posixlyCorrect: bool) returns (rest: string)
      requires 1 <= optind <= argv.Length
      modifies this`firstNonopt, this`lastNonopt, this`nextchar, this`ordering, this`start, this`orig, this`seen
      ensures rest == Stripped(os) && ordering == OrderingFor(os, posixlyCorrect)
      ensures nextchar == "" && State() == Scan(argv[..], optind, optind, optind, "")
      ensures start == optind && orig == argv[..] && seen == []
    {
      firstNonopt := optind;
      lastNonopt := optind;
      nextchar := "";
      rest := os;
      if os != "" && os[0] == '-' {
        ordering := ReturnInOrder;
        rest := os[1..];
      } else if os != "" && os[0] == '+' {
        ordering := RequireOrder;
        rest := os[1..];
      } else if posixlyCorrect {
        ordering := RequireOrder;
      } else {
        ordering := Permute;
      }
      start, orig, seen := optind, argv[..], [];
    }

    /** In PERMUTE order: put the operands skipped so far behind the options handled since, and skip the
        operands that follow. */
    method Arrange(os: string)
      requires Valid(os) && nextchar == "" && ordering == Permute
      requires firstNonopt <= optind && lastNonopt <= optind
      modifies this`optind, this`firstNonopt, this`lastNonopt, argv
      ensures Valid(os) && firstNonopt <= lastNonopt == optind
      ensures optind < argv.Length ==> !NonOption(argv[optind])
    {
      hide OnTheWay, NonOption, Exchanged;
      ghost var sc := State();
      Bounds(os, orig, start, seen, sc);
      if firstNonopt != lastNonopt && lastNonopt != optind {
        ExchangeKeeps(os, orig, start, seen, sc);
        Exchange();
      } else if lastNonopt != optind {
        AbsorbKeeps(os, orig, start, seen, sc);
        firstNonopt := optind;
      }
      sc := Scan(argv[..], firstNonopt, optind, optind, "");
      while optind < argv.Length && NonOption(argv[optind])
        invariant start <= firstNonopt <= optind <= argv.Length
        invariant sc == Scan(argv[..], firstNonopt, optind, optind, "")
        invariant OnTheWay(os, orig, start, seen, sc)
      {
        SkipKeeps(os, orig, start, seen, sc);
        optind := optind + 1;
        sc := Scan(argv[..], firstNonopt, optind, optind, "");
      }
      lastNonopt := optind;
    }

    /** "--" or the end of the words: the scan is over, and optind goes back to the operands. */
    method Finish(os: string)
      requires Valid(os) && nextchar == ""
      requires firstNonopt <= lastNonopt <= optind && (ordering == Permute ==> lastNonopt == optind)
      requires optind < argv.Length ==> argv[optind] == "--"
      modifies this`optind, this`firstNonopt, this`lastNonopt, this`start, this`orig, this`seen, argv
      ensures ordering == Permute ==> Divided(os, old(orig), old(start), old(seen), argv[..], optind)
      ensures ordering != Permute ==> argv[..] == old(argv[..])
      ensures ordering != Permute ==> optind == old(optind) + if old(optind) < argv.Length then 1 else 0
      ensures Valid(os) && start == optind && orig == argv[..] && seen == []
    {
      hide OnTheWay, Divided, Exchanged;
      ghost var sc := State();
      if ordering == Permute {
        Bounds(os, orig, start, seen, sc);
        if optind < argv.Length {
          DashesEnd(os, orig, start, seen, sc);
          if firstNonopt == lastNonopt {
            NothingToExchange(argv[..], firstNonopt, lastNonopt, optind + 1);
          }
        } else {
          WordsEnd(os, orig, start, seen, sc);
        }
      }
      if optind != argv.Length {
        optind := optind + 1;
        if firstNonopt != lastNonopt && lastNonopt != optind {
          Exchange();
        } else if firstNonopt == lastNonopt {
          firstNonopt := optind;
        }
        lastNonopt := argv.Length;
        optind := argv.Length;
      }
      if firstNonopt != lastNonopt {
        optind := firstNonopt;
      }
      start, orig, seen := optind, argv[..], [];
      ScanStarts(os, orig, start);
    }

    /** The next option character of the word at optind is handled. */
    method ShortOption(os: string) returns (c: int)
      requires Valid(os) && nextchar != "" && optarg == NoArg && NoLongW(os)
      modifies this`optind, this`nextchar, this`optarg, this`optopt, this`seen
      ensures var s := ShortStep(os, old(nextchar), argv[old(optind) + 1..]);
              && seen == old(seen) + [s.report]
              && c == CodeOf(os, s.report) && Returned(os, s.report, c)
              && nextchar == s.rest
              && optind == old(optind) + (if s.rest != "" then 0 else Taken(s))
              && optarg == (if s.report.Option? then s.report.arg else NoArg)
              && optopt == (if s.report.Option? then old(optopt) else s.report.c)
      ensures Valid(os)
    {
      hide OnTheWay, ShortStep, Returned, CodeOf;
      ghost var sc := State();
      ReportReturned(os, nextchar, argv[optind + 1..]);
      if ordering == Permute {
        Bounds(os, orig, start, seen, sc);
        StepKeeps(os, orig, start, seen, sc);
      }
      ghost var step := NextStep(os, sc);
      seen := seen + [step.report];
      c := HandleCharacter(os);
      assert ordering == Permute ==> State() == AfterStep(os, sc);
    }

    /** The character itself: what it reports, and what is left of the word. */
    method HandleCharacter(os: string) returns (c: int)
      requires nextchar != "" && optind < argv.Length && optarg == NoArg
      modifies this`optind, this`nextchar, this`optarg, this`optopt
      ensures var s := ShortStep(os, old(nextchar), argv[old(optind) + 1..]);
              && c == CodeOf(os, s.report)
              && nextchar == s.rest
              && optind == old(optind) + (if s.rest != "" then 0 else Taken(s))
              && optarg == (if s.report.Option? then s.report.arg else NoArg)
              && optopt == (if s.report.Option? then old(optopt) else s.report.c)
    {
      hide ShortStep, IndexIn;
      ShortStepIs(os, nextchar, argv[optind + 1..]);
      c := nextchar[0] as int;
      var ch := nextchar[0];
      nextchar := nextchar[1..];
      var temp := IndexIn(os, ch);
      if nextchar == "" {
        optind := optind + 1;
      }
      if temp == |os| || ch == ':' {
        optopt := ch;
        c := '?' as int;
      } else if Holds(os, temp + 1, ':') {
        if Holds(os, temp + 2, ':') {
          if nextchar != "" {
            optarg := Given(nextchar);
            optind := optind + 1;
          } else {
            optarg := NoArg;
          }
        } else {
          var found := RequiredArgument();
          if !found {
            optopt := ch;
            c := if Holds(os, 0, ':') then ':' as int else '?' as int;
          }
        }
        nextchar := "";
      }
    }

    /** The argument an option must have: the rest of the word, or the next word. */
    method RequiredArgument() returns (found: bool)
      requires optind <= argv.Length && optarg == NoArg && (nextchar != "" ==> optind < argv.Length)
      modifies this`optind, this`optarg
      ensures nextchar != "" ==> found && optarg == Given(nextchar) && optind == old(optind) + 1
      ensures nextchar == "" && old(optind) == argv.Length ==> !found && optarg == NoArg && optind == old(optind)
      ensures nextchar == "" && old(optind) < argv.Length ==> found && optarg == Given(argv[old(optind)]) && optind == old(optind) + 1
    {
      if nextchar != "" {
        optarg := Given(nextchar);
        optind := optind + 1;
      } else if optind == argv.Length {
        return false;
      } else {
        optarg := Given(argv[optind]);
        optind := optind + 1;
      }
      return true;
    }

    /** The records are kept in bounds when optind has moved back. */
    method Clamp()
      modifies this`firstNonopt, this`lastNonopt
      ensures firstNonopt == Min(old(firstNonopt), optind) && lastNonopt == Min(old(lastNonopt), optind)
    {
      if lastNonopt > optind {
        lastNonopt := optind;
      }
      if firstNonopt > optind {
        firstNonopt := optind;
      }
    }

    /** An option word is entered; an operand met in its place stops the scan or is handed over. */
    method EnterOrStop(os: string) returns (found: bool, c: int)
      requires Valid(os) && nextchar == "" && optarg == NoArg
      requires firstNonopt <= optind && lastNonopt <= optind < argv.Length
      requires argv[optind] != "--" && (ordering == Permute ==> !NonOption(argv[optind]))
      modifies this`optind, this`nextchar, this`optarg
      ensures Valid(os)
      ensures found == !NonOption(argv[old(optind)])
      ensures found ==> optind == old(optind) && optarg == NoArg
      ensures found ==> nextchar != "" && argv[optind] != "" && nextchar == argv[optind][1..]
      ensures !found && ordering == RequireOrder ==> c == -1 && optind == old(optind) && optarg == NoArg
      ensures !found && ordering == ReturnInOrder ==> c == 1 && optind == old(optind) + 1 && optarg == Given(argv[old(optind)])
    {
      hide OnTheWay, NonOption;
      if NonOption(argv[optind]) {
        if ordering == RequireOrder {
          return false, -1;
        }
        optarg := Given(argv[optind]);
        optind := optind + 1;
        return false, 1;
      }
      if ordering == Permute {
        EnterKeeps(os, orig, start, seen, State());
        Bounds(os, orig, start, seen, State());
      }
      OptionWord(argv[optind]);
      nextchar := argv[optind][1..];
      return true, 0;
    }

    /** Advance to the next option word, or find out that there is none. */
    method NextWord(os: string) returns (found: bool, c: int)
      requires Valid(os) && nextchar == "" && optarg == NoArg
      modifies this`optind, this`nextchar, this`optarg, this`firstNonopt, this`lastNonopt,
               this`start, this`orig, this`seen, argv
      ensures Valid(os)
      ensures found ==>
                && nextchar != "" && optarg == NoArg
                && start == old(start) && orig == old(orig) && seen == old(seen)
      ensures ordering == Permute && !found ==>
                && c == -1 && optarg == NoArg
                && Divided(os, old(orig), old(start), old(seen), argv[..], optind)
                && start == optind && orig == argv[..] && seen == []
      ensures ordering != Permute ==> argv[..] == old(argv[..])
      ensures ordering != Permute ==>
                match NextInOrder(os, ordering == RequireOrder, "", argv[old(optind)..])
                case End(n) => !found && c == -1 && optind == old(optind) + n && optarg == NoArg
                case Operand(w) => !found && c == 1 && optind == old(optind) + 1 && optarg == Given(w)
                case Handled(s) =>
                  && found && optind == old(optind) && nextchar == argv[optind][1..]
                  && s == ShortStep(os, nextchar, argv[optind + 1..])
    {
      hide OnTheWay, Divided, NonOption, ShortStep, NextInOrder;
      InOrderAt(os, ordering == RequireOrder, argv[..], optind);
      Clamp();
      if ordering == Permute {
        Arrange(os);
      }
      if optind == argv.Length || argv[optind] == "--" {
        Finish(os);
        return false, -1;
      }
      found, c := EnterOrStop(os);
    }

    /** A new scan is begun if there is none. */
    method Begin(os: string, posixlyCorrect: bool) returns (rest: string)
      requires Ready(os) && argv.Length > 0
      modifies this
      ensures rest == old(OptionsNow(os)) && ordering == old(OrderingNow(os, posixlyCorrect))
      ensures ordering == Permute ==> rest == os
      ensures Valid(rest) && NoLongW(rest)
      ensures start == old(From()) && orig == old(Words()) && seen == old(Past())
      ensures nextchar == old(Text()) && optarg == NoArg
      ensures optind == if old(optind) == 0 then 1 else old(optind)
    {
      hide OnTheWay, OrderingFor, Stripped;
      optarg := NoArg;
      rest := os;
      if optind == 0 || !initialized {
        if optind == 0 {
          optind := 1;
        }
        StrippedString(os, posixlyCorrect);
        rest := Initialize(os, posixlyCorrect);
        initialized := true;
        ScanStarts(rest, orig, start);
      }
    }

    /** getopt: one call. -1 ends a scan, and the next call begins another where it ended. */
    method Next(os: string, posixlyCorrect: bool) returns (c: int)
      requires Ready(os)
      modifies this, argv
      ensures argv.Length == 0 ==> c == -1 && argv[..] == old(argv[..])
      ensures argv.Length > 0 ==>
                && ordering == old(OrderingNow(os, posixlyCorrect))
                && Valid(old(OptionsNow(os)))
      // Operands permuted: one more report, or the words are divided.
      ensures argv.Length > 0 && ordering == Permute && c != -1 ==>
                && start == old(From()) && orig == old(Words())
                && |seen| == |old(Past())| + 1 && seen[..|seen| - 1] == old(Past())
                && var r := seen[|seen| - 1];
                   && c == CodeOf(os, r) && Returned(os, r, c)
                   && optarg == (if r.Option? then r.arg else NoArg)
                   && (!r.Option? ==> optopt == r.c)
      ensures argv.Length > 0 && ordering == Permute && c == -1 ==>
                && Divided(os, old(Words()), old(From()), old(Past()), argv[..], optind)
                && start == optind && orig == argv[..] && seen == []
      // Operands not permuted: argv stays as it is, and the next thing in it is found.
      ensures argv.Length > 0 && ordering != Permute ==>
                && argv[..] == old(argv[..])
                && var from := if old(optind) == 0 then 1 else old(optind);
                   match NextInOrder(old(OptionsNow(os)), ordering == RequireOrder, old(Text()), argv[from..])
                   case End(n) => c == -1 && optind == from + n && optarg == NoArg
                   case Operand(w) => c == 1 && optind == from + 1 && optarg == Given(w)
                   case Handled(s) =>
                     && c == CodeOf(old(OptionsNow(os)), s.report) && Returned(old(OptionsNow(os)), s.report, c)
                     && nextchar == s.rest
                     && optind == from + (if s.rest != "" then 0 else Taken(s))
                     && optarg == (if s.report.Option? then s.report.arg else NoArg)
    {
      hide OnTheWay, Divided, NonOption, OrderingFor, Stripped, ShortStep, NextInOrder, Returned, CodeOf;
      if argv.Length < 1 {
        return -1;
      }
      var rest := Begin(os, posixlyCorrect);
      var found := true;
      if nextchar == "" {
        found, c := NextWord(rest);
      } else if ordering != Permute {
        InOrderWithin(rest, ordering == RequireOrder, nextchar, argv[..], optind);
      }
      if found {
        c := ShortOption(rest);
      }
    }

    /** The caller's loop: until -1. */
    method ScanAll(os: string) returns (codes: seq<int>)
      requires Begins() && Ready(os) && argv.Length > 0 && OrderingFor(os, false) == Permute
      modifies this, argv
      ensures var words := old(argv[..]);
              var from := old(From());
              && codes == Codes(os, Reports(os, "", words[from..]))
              && AllReturned(os, Reports(os, "", words[from..]), codes)
              && argv[..] == words[..from] + Options(os, "", words[from..]) + Operands(os, "", words[from..])
              && optind == from + |Options(os, "", words[from..])|
    {
      hide Divided, OnTheWay, Reports, Options, Operands, Returned, CodeOf;
      codes := [];
      ghost var words := argv[..];
      ghost var from := From();
      while true
        invariant Ready(os) && OrderingNow(os, false) == Permute && OptionsNow(os) == os
        invariant Words() == words && From() == from && codes == Codes(os, Past()) && AllReturned(os, Past(), codes)
        invariant |Past()| <= |Reports(os, "", words[from..])|
        decreases |Reports(os, "", words[from..])| - |Past()|
      {
        ghost var past := Past();
        var c := Next(os, false);
        if c == -1 {
          DividedIs(os, words, from, past, argv[..], optind);
          break;
        }
        ReportsCount(os, words, from, seen, State());
        CodesAppend(os, past, seen[|seen| - 1]);
        assert seen == past + [seen[|seen| - 1]];
        codes := codes + [c];
      }
    }
  }

  /** Every report, with the value returned for it. */
  ghost predicate AllReturned(os: string, rs: seq<Report>, codes: seq<int>) {
    |rs| == |codes| && forall k :: 0 <= k < |rs| ==> Returned(os, rs[k], codes[k])
  }

  ghost function Codes(os: string, rs: seq<Report>): seq<int> {
    seq(|rs|, k requires 0 <= k < |rs| => CodeOf(os, rs[k]))
  }

  lemma CodesAppend(os: string, rs: seq<Report>, r: Report)
    ensures Codes(os, rs + [r]) == Codes(os, rs) + [CodeOf(os, r)]
  {
  }

  lemma ReportsCount(os: string, orig: seq<string>, start: nat, seen: seq<Report>, sc: Scan)
    requires OnTheWay(os, orig, start, seen, sc)
    ensures start <= |orig| && |seen| <= |Reports(os, "", orig[start..])|
  {
  }

  lemma DividedIs(os: string, orig: seq<string>, start: nat, seen: seq<Report>, words: seq<string>, optind: nat)
    requires Divided(os, orig, start, seen, words, optind)
    ensures start <= |orig|
    ensures words == orig[..start] + Options(os, "", orig[start..]) + Operands(os, "", orig[start..])
    ensures optind == start + |Options(os, "", orig[start..])| && seen == Reports(os, "", orig[start..])
  {
  }

  /** The handling of one character, with the listing of the character spelled out. */
  lemma ShortStepIs(os: string, text: string, next: seq<string>)
    requires text != ""
    ensures var c, rest := text[0], text[1..];
            var i := IndexIn(os, c);
            ShortStep(os, text, next) ==
            if i == |os| || c == ':' then Step(Unknown(c), rest, false)
            else if !Holds(os, i + 1, ':') then Step(Option(c, NoArg), rest, false)
            else if rest != "" then Step(Option(c, Given(rest)), "", false)
            else if Holds(os, i + 2, ':') then Step(Option(c, NoArg), "", false)
            else if next == [] then Step(Missing(c), "", false)
            else Step(Option(c, Given(next[0])), "", true)
  {
    hide KindOf, IndexIn, Holds;
    KindIs(os, text[0]);
  }

  lemma KindIs(os: string, c: char)
    ensures var i := IndexIn(os, c);
            KindOf(os, c) ==
            if i == |os| || c == ':' then Unlisted
            else if !Holds(os, i + 1, ':') then Plain
            else if Holds(os, i + 2, ':') then TakesOptional
            else TakesRequired
  {
    hide IndexIn, Holds;
  }

  lemma OptionWord(w: string)
    requires !NonOption(w)
    ensures |w| >= 2
  {
  }

  lemma StrippedString(os: string, posixlyCorrect: bool)
    requires NoLongW(os)
    ensures NoLongW(Stripped(os)) && (OrderingFor(os, posixlyCorrect) == Permute ==> Stripped(os) == os)
  {
  }
}
