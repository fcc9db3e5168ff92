/**
 * Which published language an Accept-Language header asks for (section 12.5.4 of
 * RFC 9110), with the quality values of section 12.4.2.
 */
module Negotiation {
  import opened Options
  import opened StableSort

  datatype Locale = En | PtBr | Es | De | Ja

  /** One entry of the header: a lower case tag and its quality. */
  datatype Entry = Entry(tag: string, quality: real)

  /**
   * What looking a base language up in the table gives: a locale, nothing, or,
   * the table being a plain object, something every object has.
   */
  datatype Found = Nothing | Published(locale: Locale) | Inherited(name: string)

  /** The names every plain object answers to that have no capital in them. */
  const INHERITED := {"constructor", "__proto__"}

  function Lookup(base: string): Found {
    if base == "en" then Published(En)
    else if base == "pt" then Published(PtBr)
    else if base == "es" then Published(Es)
    else if base == "de" then Published(De)
    else if base == "ja" then Published(Ja)
    else if base in INHERITED then Inherited(base)
    else Nothing
  }

  // ----------------------------------------------------------- reading the header

  function Split(s: string, separator: char): (parts: seq<string>)
    ensures parts != []
  {
    if s == [] then [[]]
    else
      var rest := Split(s[1..], separator);
      if s[0] == separator then [[]] + rest else [[s[0]] + rest[0]] + rest[1..]
  }

  predicate Space(c: char) {
    c in {' ', '\t', '\n', '\r'}
  }

  function TrimStart(s: string): string {
    if s != [] && Space(s[0]) then TrimStart(s[1..]) else s
  }

  function TrimEnd(s: string): string {
    if s != [] && Space(s[|s| - 1]) then TrimEnd(s[..|s| - 1]) else s
  }

  function Trim(s: string): string {
    TrimEnd(TrimStart(s))
  }

  function Lower(s: string): (r: string)
    ensures |r| == |s|
    ensures forall k :: 0 <= k < |s| ==>
              if 'A' <= s[k] <= 'Z' then 'a' <= r[k] <= 'z' && r[k] - 'a' == s[k] - 'A' else r[k] == s[k]
  {
    seq(|s|, k requires 0 <= k < |s| => if 'A' <= s[k] <= 'Z' then s[k] + 'a' - 'A' else s[k])
  }

  /** What a list of parts was split from. */
  function Join(parts: seq<string>, separator: char): string
    requires parts != []
  {
    if |parts| == 1 then parts[0] else parts[0] + [separator] + Join(parts[1..], separator)
  }

  /** A string is split at its separators and nowhere else. */
  lemma {:induction false} SplitIsCut(s: string, separator: char)
    ensures Join(Split(s, separator), separator) == s
    ensures forall part :: part in Split(s, separator) ==> separator !in part
  {
    if s != [] {
      var parts, rest := Split(s, separator), Split(s[1..], separator);
      SplitIsCut(s[1..], separator);
      if s[0] == separator {
        assert parts[1..] == rest;
      } else {
        assert parts[1..] == rest[1..] && parts[0] == [s[0]] + rest[0];
        assert forall part :: part in rest[1..] ==> part in rest;
        if |rest| > 1 {
          assert parts[0] + [separator] + Join(rest[1..], separator)
              == [s[0]] + (rest[0] + [separator] + Join(rest[1..], separator));
        }
      }
      assert s == [s[0]] + s[1..];
    }
  }

  lemma {:induction false} TrimStartCuts(s: string) returns (from: nat)
    ensures from <= |s| && TrimStart(s) == s[from..]
    ensures (forall k :: 0 <= k < from ==> Space(s[k])) && (from < |s| ==> !Space(s[from]))
  {
    from := 0;
    if s != [] && Space(s[0]) {
      var rest := TrimStartCuts(s[1..]);
      from := rest + 1;
    }
  }

  lemma {:induction false} TrimEndCuts(s: string) returns (to: nat)
    ensures to <= |s| && TrimEnd(s) == s[..to]
    ensures (forall k :: to <= k < |s| ==> Space(s[k])) && (to > 0 ==> !Space(s[to - 1]))
    decreases |s|
  {
    to := |s|;
    if s != [] && Space(s[|s| - 1]) {
      to := TrimEndCuts(s[..|s| - 1]);
    }
  }

  /** Trimming takes the blanks away at both ends, and nothing else. */
  lemma TrimCuts(s: string) returns (from: nat, to: nat)
    ensures from <= to <= |s| && Trim(s) == s[from..to]
    ensures forall k :: 0 <= k < from || to <= k < |s| ==> s[k] in {' ', '\t', '\n', '\r'}
    ensures from < to ==> s[from] !in {' ', '\t', '\n', '\r'} && s[to - 1] !in {' ', '\t', '\n', '\r'}
  {
    from := TrimStartCuts(s);
    var end := TrimEndCuts(s[from..]);
    to := from + end;
    forall k | to <= k < |s| ensures Space(s[k]) {
      assert s[k] == s[from..][k - from];
    }
  }

  /** The first parameter that is a quality and reads as a finite number. */
  function Quality(parameters: seq<string>, parse: string -> Option<real>): Option<real> {
    if parameters == [] then None
    else
      var p := Trim(parameters[0]);
      var value := if "q=" <= p then parse(p[2..]) else None;
      if value.Some? then value else Quality(parameters[1..], parse)
  }

  function ReadEntry(part: string, parse: string -> Option<real>): Entry {
    var pieces := Split(Trim(part), ';');
    var quality := Quality(pieces[1..], parse);
    Entry(Lower(Trim(pieces[0])), if quality.Some? then quality.value else 1.0)
  }

  function ReadEntries(parts: seq<string>, parse: string -> Option<real>): seq<Entry> {
    if parts == [] then [] else [ReadEntry(parts[0], parse)] + ReadEntries(parts[1..], parse)
  }

  /** What one parameter says of the quality. */
  function QualityOf(parameter: string, parse: string -> Option<real>): Option<real> {
    if "q=" <= Trim(parameter) then parse(Trim(parameter)[2..]) else None
  }

  /** The quality is that of the first parameter that names a finite one. */
  lemma {:induction false} QualityIsFirst(parameters: seq<string>, parse: string -> Option<real>)
    ensures Quality(parameters, parse).None? ==>
              forall k :: 0 <= k < |parameters| ==> QualityOf(parameters[k], parse).None?
    ensures Quality(parameters, parse).Some? ==>
              exists k :: && 0 <= k < |parameters| && QualityOf(parameters[k], parse) == Quality(parameters, parse)
                          && forall j :: 0 <= j < k ==> QualityOf(parameters[j], parse).None?
  {
    if parameters != [] {
      var rest := parameters[1..];
      QualityIsFirst(rest, parse);
      if QualityOf(parameters[0], parse).None? && Quality(rest, parse).Some? {
        var k :| && 0 <= k < |rest| && QualityOf(rest[k], parse) == Quality(rest, parse)
                 && forall j :: 0 <= j < k ==> QualityOf(rest[j], parse).None?;
        assert QualityOf(parameters[k + 1], parse) == Quality(parameters, parse);
        assert forall j :: 0 < j < k + 1 ==> parameters[j] == rest[j - 1];
      } else if QualityOf(parameters[0], parse).Some? {
        assert QualityOf(parameters[0], parse) == Quality(parameters, parse);
      }
    }
  }

  /** A tag on its own is wanted as much as can be. */
  lemma PlainTagIsWantedMost(part: string, parse: string -> Option<real>)
    requires ';' !in Trim(part)
    ensures ReadEntry(part, parse) == Entry(Lower(Trim(Trim(part))), 1.0)
  {
    SplitWhole(Trim(part), ';');
    assert [Trim(part)][1..] == [];
  }

  /** A tag with a quality is wanted as much as that says, when it says a finite number. */
  lemma WantedAs(tag: string, value: string, parse: string -> Option<real>)
    requires tag != "" && ';' !in tag && !Space(tag[0]) && !Space(tag[|tag| - 1])
    requires value != "" && ';' !in value && !Space(value[|value| - 1])
    ensures ReadEntry(tag + (";q=" + value), parse)
         == Entry(Lower(tag), if parse(value).Some? then parse(value).value else 1.0)
  {
    var part, parameter := tag + (";q=" + value), "q=" + value;
    assert part == tag + [';'] + parameter;
    TrimmedStays(part);
    SplitFirst(tag, parameter, ';');
    SplitWhole(parameter, ';');
    TrimmedStays(tag);
    TrimmedStays(parameter);
    assert Split(part, ';')[1..] == [parameter];
    assert "q=" <= parameter && parameter[2..] == value;
    assert Quality([parameter], parse) == parse(value);
  }

  // -------------------------------------------------------------- the negotiation

  predicate Counts(e: Entry) {
    e.tag != "" && e.quality > 0.0
  }

  function Counting(entries: seq<Entry>): seq<Entry> {
    if entries == [] then []
    else if Counts(entries[0]) then [entries[0]] + Counting(entries[1..])
    else Counting(entries[1..])
  }

  function MatchOf(e: Entry): Found {
    if e.tag == "*" then Nothing else Lookup(Split(e.tag, '-')[0])
  }

  function ByQuality(): StableSort.Order<Entry> {
    (a: Entry, b: Entry) => b.quality - a.quality <= 0.0
  }

  /** The scan: the first entry that maps to something. */
  function FirstMatch(entries: seq<Entry>): Option<Entry> {
    if entries == [] then None
    else if MatchOf(entries[0]) != Nothing then Some(entries[0])
    else FirstMatch(entries[1..])
  }

  function Ranked(entries: seq<Entry>): seq<Entry> {
    Sort(Counting(entries), ByQuality())
  }

  function NegotiateEntries(entries: seq<Entry>): Found {
    var first := FirstMatch(Ranked(entries));
    if first.Some? then MatchOf(first.value) else Nothing
  }

  function Negotiate(header: Option<string>, parse: string -> Option<real>): Found {
    if header.None? || Trim(header.value) == "" then Nothing
    else NegotiateEntries(ReadEntries(Split(header.value, ','), parse))
  }

  /** The entries a header lists; a missing or a blank one lists none. */
  function Entries(header: Option<string>, parse: string -> Option<real>): seq<Entry> {
    if header.None? || Trim(header.value) == "" then [] else ReadEntries(Split(header.value, ','), parse)
  }

  // ------------------------------------------------------ the entry that is chosen

  predicate Eligible(e: Entry) {
    e.tag != "" && e.quality > 0.0 && MatchOf(e) != Nothing
  }

  /** The earliest entry of the greatest quality, among those that count and map to something. */
  ghost predicate Chosen(entries: seq<Entry>, k: nat) {
    && k < |entries| && Eligible(entries[k])
    && (forall j :: 0 <= j < k && Eligible(entries[j]) ==> entries[j].quality < entries[k].quality)
    && (forall j :: k < j < |entries| && Eligible(entries[j]) ==> entries[j].quality <= entries[k].quality)
  }

  lemma {:induction false} FirstMatchSome(entries: seq<Entry>)
    ensures FirstMatch(entries).Some? ==>
              FirstMatch(entries).value in entries && MatchOf(FirstMatch(entries).value) != Nothing
    ensures FirstMatch(entries).None? ==> forall e :: e in entries ==> MatchOf(e) == Nothing
  {
    if entries != [] {
      FirstMatchSome(entries[1..]);
    }
  }

  /** What one more entry in front of a sorted list changes about its first match. */
  lemma {:induction false} InsertedMatch(x: Entry, sorted: seq<Entry>)
    requires Sorted(sorted, ByQuality())
    ensures FirstMatch(Insert(x, sorted, ByQuality()))
         == (if MatchOf(x) != Nothing
                && (FirstMatch(sorted).None? || FirstMatch(sorted).value.quality <= x.quality)
             then Some(x) else FirstMatch(sorted))
  {
    FirstMatchSome(sorted);
    if sorted != [] {
      if ByQuality()(x, sorted[0]) {
        assert ([x] + sorted)[1..] == sorted;
        if FirstMatch(sorted).Some? {
          var j :| 0 <= j < |sorted| && sorted[j] == FirstMatch(sorted).value;
          assert j > 0 ==> ByQuality()(sorted[0], sorted[j]);
        }
      } else {
        InsertedMatch(x, sorted[1..]);
        var tail := Insert(x, sorted[1..], ByQuality());
        assert ([sorted[0]] + tail)[1..] == tail;
      }
    }
  }

  lemma QualityIsConsistent(entries: seq<Entry>)
    ensures ConsistentOn(ByQuality(), entries)
  {
  }

  lemma ChosenLater(entries: seq<Entry>, j: nat)
    requires entries != [] && Chosen(entries[1..], j)
    requires Eligible(entries[0]) ==> entries[0].quality < entries[1..][j].quality
    ensures Chosen(entries, j + 1)
  {
    assert forall i :: 0 < i < |entries| ==> entries[i] == entries[1..][i - 1];
  }

  lemma ChosenFirst(entries: seq<Entry>)
    requires entries != [] && Eligible(entries[0])
    requires forall e :: e in entries[1..] && Eligible(e) ==> e.quality <= entries[0].quality
    ensures Chosen(entries, 0)
  {
    assert forall i :: 0 < i < |entries| ==> entries[i] == entries[1..][i - 1];
  }

  lemma ChosenIsGreatest(entries: seq<Entry>, k: nat)
    requires Chosen(entries, k)
    ensures forall e :: e in entries && Eligible(e) ==> e.quality <= entries[k].quality
  {
  }

  lemma {:induction false} RankedChoice(entries: seq<Entry>) returns (k: nat)
    ensures FirstMatch(Ranked(entries)).None? ==> forall e :: e in entries ==> !Eligible(e)
    ensures FirstMatch(Ranked(entries)).Some? ==>
              Chosen(entries, k) && entries[k] == FirstMatch(Ranked(entries)).value
  {
    k := 0;
    if entries != [] {
      var x, rest := entries[0], entries[1..];
      var j := RankedChoice(rest);
      var best := FirstMatch(Ranked(rest));
      if Counts(x) {
        QualityIsConsistent(Counting(rest));
        SortSorts(Counting(rest), ByQuality());
        assert Counting(entries)[1..] == Counting(rest);
        InsertedMatch(x, Ranked(rest));
      }
      if best.Some? {
        ChosenIsGreatest(rest, j);
      }
      if Eligible(x) && (best.None? || best.value.quality <= x.quality) {
        ChosenFirst(entries);
      } else if best.Some? {
        ChosenLater(entries, j);
        k := j + 1;
      }
    }
  }

  lemma EntriesChooseBest(entries: seq<Entry>)
    ensures NegotiateEntries(entries) == Nothing <==> forall e :: e in entries ==> !Eligible(e)
    ensures NegotiateEntries(entries) != Nothing ==>
              exists k: nat :: Chosen(entries, k) && NegotiateEntries(entries) == MatchOf(entries[k])
  {
    var k := RankedChoice(entries);
    FirstMatchSome(Ranked(entries));
    if NegotiateEntries(entries) != Nothing {
      assert Chosen(entries, k) && entries[k] in entries;
    }
  }

  lemma NegotiatesEntries(header: Option<string>, parse: string -> Option<real>)
    ensures Negotiate(header, parse) == NegotiateEntries(Entries(header, parse))
  {
    assert Ranked([]) == [] && FirstMatch([]) == None;
  }

  /**
   * A header is answered with what its earliest entry of the greatest positive
   * quality maps to, among the entries that map to anything, and with nothing when
   * none does.
   */
  lemma NegotiationChoosesBest(header: Option<string>, parse: string -> Option<real>)
    ensures var entries := Entries(header, parse);
            && (Negotiate(header, parse) == Nothing <==> forall e :: e in entries ==> !Eligible(e))
            && (Negotiate(header, parse) != Nothing ==>
                  exists k: nat :: Chosen(entries, k) && Negotiate(header, parse) == MatchOf(entries[k]))
  {
    NegotiatesEntries(header, parse);
    EntriesChooseBest(Entries(header, parse));
  }

  /**
   * A header that is one tag is answered by its base language, whatever its case and
   * whatever region or script comes behind it: the five that are published, the two
   * names every object has, and no other.
   */
  lemma TagIsAnsweredByItsBase(tag: string, base: string, parse: string -> Option<real>)
    requires '-' !in base && (tag == base || base + "-" <= tag)
    requires forall c :: c in tag ==> c != ',' && c != ';' && !Space(c)
    ensures Negotiate(Some(tag), parse)
         == match Lower(base)
            case "en" => Published(En)
            case "pt" => Published(PtBr)
            case "es" => Published(Es)
            case "de" => Published(De)
            case "ja" => Published(Ja)
            case "constructor" => Inherited("constructor")
            case "__proto__" => Inherited("__proto__")
            case _ => Nothing
  {
    if tag == "" {
      assert Lower(base) == [];
    } else {
      TagIsLookedUp(tag, base, parse);
    }
  }

  lemma TagIsLookedUp(tag: string, base: string, parse: string -> Option<real>)
    requires '-' !in base && (tag == base || base + "-" <= tag) && tag != ""
    requires forall c :: c in tag ==> c != ',' && c != ';' && !Space(c)
    ensures Negotiate(Some(tag), parse) == if Lower(base) == "*" then Nothing else Lookup(Lower(base))
  {
    TagIsRead(tag, parse);
    NegotiatesEntries(Some(tag), parse);
    LowerBase(tag, base);
    OneEntry(Entry(Lower(tag), 1.0));
  }

  lemma TagIsRead(tag: string, parse: string -> Option<real>)
    requires tag != "" && forall c :: c in tag ==> c != ',' && c != ';' && !Space(c)
    ensures Entries(Some(tag), parse) == [Entry(Lower(tag), 1.0)]
  {
    TrimmedStays(tag);
    SplitWhole(tag, ',');
    PlainTagIsWantedMost(tag, parse);
    assert ReadEntries([tag], parse) == [ReadEntry(tag, parse)] + ReadEntries([tag][1..], parse);
    assert [tag][1..] == [] && Trim(tag) != "";
  }

  lemma LowerBase(tag: string, base: string)
    requires '-' !in base && (tag == base || base + "-" <= tag)
    ensures Split(Lower(tag), '-')[0] == Lower(base)
  {
    var low := Lower(tag);
    assert '-' !in Lower(base) by {
      forall k | 0 <= k < |base| ensures Lower(base)[k] != '-' {
        assert base[k] in base;
      }
    }
    if tag == base {
      SplitWhole(low, '-');
    } else {
      var rest := low[|base| + 1..];
      assert forall k :: 0 <= k < |base| ==> base[k] == tag[k];
      assert tag[|base|] == (base + "-")[|base|] == '-';
      assert low == Lower(base) + ['-'] + rest;
      SplitFirst(Lower(base), rest, '-');
    }
  }

  lemma OneEntry(e: Entry)
    requires e.tag != "" && e.quality > 0.0
    ensures var base := Split(e.tag, '-')[0];
            NegotiateEntries([e]) == if base == "*" then Nothing else Lookup(base)
  {
    if e.tag == "*" {
      SplitWhole("*", '-');
    }
    EntriesChooseBest([e]);
    assert e in [e];
  }

  lemma OneIsChosen(entries: seq<Entry>, j: nat, k: nat)
    requires Chosen(entries, j) && Chosen(entries, k)
    ensures j == k
  {
  }

  /**
   * The answer is a published language, or nothing, exactly when the entry chosen
   * does not name something every object has.
   */
  lemma PublishedUnlessInherited(header: Option<string>, parse: string -> Option<real>)
    ensures var entries := Entries(header, parse);
            Negotiate(header, parse).Inherited?
            <==> exists k: nat :: Chosen(entries, k) && Split(entries[k].tag, '-')[0] in INHERITED
  {
    var entries := Entries(header, parse);
    NegotiationChoosesBest(header, parse);
    if k: nat :| Chosen(entries, k) && Split(entries[k].tag, '-')[0] in INHERITED {
      var j: nat :| Chosen(entries, j) && Negotiate(header, parse) == MatchOf(entries[j]);
      OneIsChosen(entries, j, k);
      SplitWhole("*", '-');
      LookupInherited(Split(entries[k].tag, '-')[0]);
    }
    if Negotiate(header, parse).Inherited? {
      var k: nat :| Chosen(entries, k) && Negotiate(header, parse) == MatchOf(entries[k]);
      LookupInherited(Split(entries[k].tag, '-')[0]);
    }
  }

  lemma LookupInherited(base: string)
    ensures Lookup(base).Inherited? <==> base in INHERITED
  {
  }

  /** A name every object has wins over a published language of a lower quality. */
  lemma AnswersConstructor(first: string, second: string, parse: string -> Option<real>)
    requires first == "constructor" && second == "de;q=0.5" && parse("0.5") == Some(0.5)
    ensures Negotiate(Some(first + [','] + second), parse) == Inherited("constructor")
  {
    ConstructorReads(first, parse);
    HalfReads(second, parse);
    NegotiatesTwo(first + [','] + second, first, second, parse);
  }

  /** A piece of a header on its own: nothing to trim at the end it shows, and no comma. */
  predicate Piece(s: string) {
    s != [] && !Space(s[0]) && !Space(s[|s| - 1]) && ',' !in s
  }

  lemma ConstructorReads(part: string, parse: string -> Option<real>)
    requires part == "constructor"
    ensures Piece(part) && ReadEntry(part, parse) == Entry("constructor", 1.0)
  {
    WholeTag(part, parse);
  }

  lemma HalfReads(part: string, parse: string -> Option<real>)
    requires part == "de;q=0.5" && parse("0.5") == Some(0.5)
    ensures Piece(part) && ReadEntry(part, parse) == Entry("de", 0.5)
  {
    var tag, value := "de", "0.5";
    assert part == tag + (";q=" + value);
    WantedAs(tag, value, parse);
    LowerStays(tag);
  }

  lemma NegotiatesTwo(header: string, first: string, second: string, parse: string -> Option<real>)
    requires header == first + [','] + second && Piece(first) && Piece(second)
    requires ReadEntry(first, parse) == Entry("constructor", 1.0) && ReadEntry(second, parse) == Entry("de", 0.5)
    ensures Negotiate(Some(header), parse) == Inherited("constructor")
  {
    TrimmedStays(header);
    ReadsTwo(header, first, second, parse);
    NegotiatesEntries(Some(header), parse);
    ConstructorWins(Entries(Some(header), parse));
  }

  lemma ConstructorWins(entries: seq<Entry>)
    requires entries == [Entry("constructor", 1.0), Entry("de", 0.5)]
    ensures NegotiateEntries(entries) == Inherited("constructor")
  {
    var tag := entries[0].tag;
    OnePiece(tag, '-');
    SplitWhole(tag, '-');
    assert MatchOf(entries[0]) == Inherited(tag);
    FirstWins(entries);
  }

  lemma OnePiece(s: string, c: char)
    requires s == "constructor" && !('a' <= c <= 'z')
    ensures c !in s
  {
  }

  lemma FirstWins(entries: seq<Entry>)
    requires |entries| == 2 && Eligible(entries[0]) && entries[1].quality < entries[0].quality
    ensures NegotiateEntries(entries) == MatchOf(entries[0])
  {
    assert Chosen(entries, 0);
    EntriesChooseBest(entries);
    var k: nat :| Chosen(entries, k) && NegotiateEntries(entries) == MatchOf(entries[k]);
    OneIsChosen(entries, 0, k);
  }

  lemma ReadsTwo(header: string, first: string, second: string, parse: string -> Option<real>)
    requires header == first + [','] + second && ',' !in first && ',' !in second && Trim(header) == header
    ensures Entries(Some(header), parse) == [ReadEntry(first, parse), ReadEntry(second, parse)]
  {
    SplitFirst(first, second, ',');
    SplitWhole(second, ',');
    var parts := [first, second];
    assert parts[1..] == [second] && [second][1..] == [];
    assert ReadEntries([second], parse) == [ReadEntry(second, parse)] + [];
    assert ReadEntries(parts, parse) == [ReadEntry(first, parse)] + ReadEntries([second], parse);
  }

  lemma WholeTag(part: string, parse: string -> Option<real>)
    requires part != [] && !Space(part[0]) && !Space(part[|part| - 1]) && ';' !in part
    requires forall k :: 0 <= k < |part| ==> !('A' <= part[k] <= 'Z')
    ensures ReadEntry(part, parse) == Entry(part, 1.0)
  {
    TrimmedStays(part);
    PlainTagIsWantedMost(part, parse);
    LowerStays(part);
  }

  /** Without blanks at its ends a piece is read as it is. */
  lemma TrimmedStays(s: string)
    requires s != [] && !Space(s[0]) && !Space(s[|s| - 1])
    ensures Trim(s) == s
  {
  }

  lemma LowerStays(s: string)
    requires forall k :: 0 <= k < |s| ==> !('A' <= s[k] <= 'Z')
    ensures Lower(s) == s
  {
  }

  lemma {:induction false} SplitFirst(first: string, rest: string, separator: char)
    requires separator !in first
    ensures Split(first + [separator] + rest, separator) == [first] + Split(rest, separator)
  {
    var s := first + [separator] + rest;
    if first == [] {
      assert s[1..] == rest;
    } else {
      assert s[1..] == first[1..] + [separator] + rest;
      SplitFirst(first[1..], rest, separator);
      assert first == [first[0]] + first[1..];
    }
  }

  lemma {:induction false} SplitWhole(s: string, separator: char)
    requires separator !in s
    ensures Split(s, separator) == [s]
  {
    if s != [] {
      SplitWhole(s[1..], separator);
      assert s == [s[0]] + s[1..];
    }
  }
}
