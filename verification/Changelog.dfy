/**
 * The changelog reader: one pass over the lines that closes an entry and a release
 * at each heading. A line comes as the pattern and the trimming leave it.
 */
module Changelog {
  import opened Options

  /** A trimmed line: blank, a release heading, a group heading, or a note without its bullet. */
  datatype Line = Blank | Release(version: string, date: Option<string>) | Group(heading: string) | Note(text: string)

  datatype Entry = Entry(heading: Option<string>, items: seq<string>)

  datatype Section = Section(version: string, date: Option<string>, entries: seq<Entry>)

  // ------------------------------------------------------------ the text of a page

  function Notes(items: seq<string>): seq<Line> {
    if items == [] then [] else [Note(items[0])] + Notes(items[1..])
  }

  function EntryLines(e: Entry): seq<Line> {
    (if e.heading.Some? then [Group(e.heading.value)] else []) + Notes(e.items)
  }

  function EntriesLines(entries: seq<Entry>): seq<Line> {
    if entries == [] then [] else EntryLines(entries[0]) + EntriesLines(entries[1..])
  }

  function SectionLines(s: Section): seq<Line> {
    [Release(s.version, s.date)] + EntriesLines(s.entries)
  }

  function Lines(sections: seq<Section>): seq<Line> {
    if sections == [] then [] else SectionLines(sections[0]) + Lines(sections[1..])
  }

  /** The lines a reader must keep: from the first release heading on, all but the blank ones. */
  function Kept(lines: seq<Line>): seq<Line> {
    if lines == [] then []
    else if lines[0].Release? then NotBlank(lines)
    else Kept(lines[1..])
  }

  function NotBlank(lines: seq<Line>): seq<Line> {
    if lines == [] then []
    else if lines[0].Blank? then NotBlank(lines[1..])
    else [lines[0]] + NotBlank(lines[1..])
  }

  lemma {:induction false} NotesAppend(a: seq<string>, item: string)
    ensures Notes(a + [item]) == Notes(a) + [Note(item)]
  {
    if a != [] {
      assert (a + [item])[1..] == a[1..] + [item];
      NotesAppend(a[1..], item);
    }
  }

  lemma {:induction false} EntriesAppend(a: seq<Entry>, e: Entry)
    ensures EntriesLines(a + [e]) == EntriesLines(a) + EntryLines(e)
  {
    if a != [] {
      assert (a + [e])[1..] == a[1..] + [e];
      EntriesAppend(a[1..], e);
    }
  }

  lemma {:induction false} LinesAppend(a: seq<Section>, s: Section)
    ensures Lines(a + [s]) == Lines(a) + SectionLines(s)
  {
    if a != [] {
      assert (a + [s])[1..] == a[1..] + [s];
      LinesAppend(a[1..], s);
    }
  }

  lemma {:induction false} NotBlankAppend(a: seq<Line>, line: Line)
    ensures NotBlank(a + [line]) == NotBlank(a) + (if line.Blank? then [] else [line])
  {
    if a != [] {
      assert (a + [line])[1..] == a[1..] + [line];
      NotBlankAppend(a[1..], line);
    }
  }

  lemma {:induction false} KeptAppend(a: seq<Line>, line: Line)
    ensures Kept(a + [line]) == (if Kept(a) == [] && !line.Release? then [] else NotBlank(Kept(a) + [line]))
    ensures Kept(a) == [] || Kept(a)[0].Release?
    ensures NotBlank(Kept(a)) == Kept(a)
  {
    if a == [] {
      assert a + [line] == [line];
    } else {
      assert (a + [line])[1..] == a[1..] + [line];
      if a[0].Release? {
        NotBlankAppend(a, line);
        NotBlankTwice(a);
        NotBlankAppend(NotBlank(a), line);
      } else {
        KeptAppend(a[1..], line);
      }
    }
  }

  lemma {:induction false} NotBlankTwice(a: seq<Line>)
    ensures NotBlank(NotBlank(a)) == NotBlank(a)
  {
    if a != [] {
      NotBlankTwice(a[1..]);
    }
  }

  // ---------------------------------------------------------------- the reader

  /** A release and an entry still open. */
  function OpenLines(release: Option<Section>, entry: Option<Entry>): seq<Line> {
    if release.None? then []
    else SectionLines(release.value) + (if entry.Some? then EntryLines(entry.value) else [])
  }

  /** Only a release's first entry may have no heading, and such an entry is not empty. */
  ghost predicate WellFormed(entries: seq<Entry>) {
    forall k :: 0 <= k < |entries| ==> entries[k].heading.Some? || (k == 0 && entries[k].items != [])
  }

  class Reading {
    var releases: seq<Section>
    var release: Option<Section>
    var entry: Option<Entry>

    /** Everything read so far, put back into lines. */
    ghost function Text(): seq<Line>
      reads this
    {
      Lines(releases) + OpenLines(release, entry)
    }

    /** The open release is well formed with the open entry added; one without is still empty. */
    ghost predicate Valid()
      reads this
    {
      && (release.None? ==> releases == [])
      && (forall s :: s in releases ==> WellFormed(s.entries))
      && (release.Some? && entry.Some? ==> WellFormed(release.value.entries + [entry.value]))
      && (release.Some? && entry.None? ==> release.value.entries == [])
    }

    constructor ()
      ensures releases == [] && release == None && entry == None
    {
      releases, release, entry := [], None, None;
    }

    method CloseEntry()
      requires Valid()
      modifies this`release, this`entry
      ensures entry == None && Text() == old(Text()) && release.None? == old(release.None?)
      ensures release.Some? ==> WellFormed(release.value.entries)
    {
      if release.Some? && entry.Some? {
        EntriesAppend(release.value.entries, entry.value);
        var closed := release.value.(entries := release.value.entries + [entry.value]);
        assert SectionLines(closed) == SectionLines(release.value) + EntryLines(entry.value);
        release := Some(closed);
      }
      entry := None;
    }

    method CloseRelease()
      requires Valid()
      modifies this
      ensures release == None && entry == None && Text() == old(Text()) == Lines(releases)
      ensures forall s :: s in releases ==> WellFormed(s.entries)
    {
      CloseEntry();
      if release.Some? {
        LinesAppend(releases, release.value);
        releases := releases + [release.value];
      }
      release := None;
    }

    /** One line; before the first release heading everything is left out. */
    method Take(line: Line)
      requires Valid()
      modifies this
      ensures Valid()
      ensures Text() == (if old(release.None?) && !line.Release? then old(Text())
                         else old(Text()) + (if line.Blank? then [] else [line]))
    {
      if line.Blank? {
        return;
      }
      if line.Release? {
        CloseRelease();
        release := Some(Section(line.version, line.date, []));
        return;
      }
      if line.Group? {
        CloseEntry();
        entry := Some(Entry(Some(line.heading), []));
        return;
      }
      if release.Some? {
        TakeNote(line.text);
      }
    }

    method TakeNote(text: string)
      requires Valid() && release.Some?
      modifies this`entry
      ensures Valid() && Text() == old(Text()) + [Note(text)]
    {
      if entry.None? {
        entry := Some(Entry(None, []));
      }
      NotesAppend(entry.value.items, text);
      ghost var before, entries := entry.value, release.value.entries;
      entry := Some(entry.value.(items := entry.value.items + [text]));
      assert entry.value.heading.Some? || entries == [] by {
        if entries != [] {
          assert (entries + [before])[|entries|] == before;
        }
      }
      forall k | 0 <= k < |entries| ensures entries[k].heading.Some? || (k == 0 && entries[k].items != []) {
        assert (entries + [before])[k] == entries[k];
      }
    }
  }

  /**
   * Every line that is not blank, from the first release heading on, is placed
   * exactly once and in order: the releases, put back into lines, are those lines.
   */
  method ReadChangelog(lines: seq<Line>) returns (releases: seq<Section>)
    ensures Lines(releases) == Kept(lines)
    ensures forall s :: s in releases ==> WellFormed(s.entries)
  {
    var reading := new Reading();
    for i := 0 to |lines|
      invariant reading.Valid()
      invariant reading.Text() == Kept(lines[..i])
      invariant fresh(reading)
    {
      assert lines[..i + 1] == lines[..i] + [lines[i]];
      KeptAppend(lines[..i], lines[i]);
      NotBlankAppend(Kept(lines[..i]), lines[i]);
      reading.Take(lines[i]);
    }
    assert lines[..|lines|] == lines;
    reading.CloseRelease();
    releases := reading.releases;
  }

  // ------------------------------------------------------------- only one reading

  ghost predicate Cuts(part: seq<Line>, rest: seq<Line>, heads: Line -> bool) {
    (forall line :: line in part ==> !heads(line)) && (rest == [] || heads(rest[0]))
  }

  /** A text is cut in only one way in front of its first heading. */
  lemma {:induction false} OneCut(a: seq<Line>, x: seq<Line>, b: seq<Line>, y: seq<Line>, heads: Line -> bool)
    requires Cuts(a, x, heads) && Cuts(b, y, heads) && a + x == b + y
    ensures a == b && x == y
  {
    assert a == [] ==> a + x == x;
    assert b == [] ==> b + y == y;
    assert a != [] ==> (a + x)[0] == a[0];
    assert b != [] ==> (b + y)[0] == b[0];
    if a != [] && b != [] {
      assert (a + x)[1..] == a[1..] + x && (b + y)[1..] == b[1..] + y;
      OneCut(a[1..], x, b[1..], y, heads);
      assert a == [a[0]] + a[1..] && b == [b[0]] + b[1..];
    }
  }

  lemma {:induction false} NotesAre(items: seq<string>)
    ensures |Notes(items)| == |items| && forall k :: 0 <= k < |items| ==> Notes(items)[k] == Note(items[k])
  {
    if items != [] {
      NotesAre(items[1..]);
    }
  }

  lemma {:induction false} EntriesAre(entries: seq<Entry>)
    ensures forall line :: line in EntriesLines(entries) ==> line.Group? || line.Note?
  {
    if entries != [] {
      NotesAre(entries[0].items);
      EntriesAre(entries[1..]);
    }
  }

  lemma SameNotes(a: seq<string>, b: seq<string>)
    requires Notes(a) == Notes(b)
    ensures a == b
  {
    NotesAre(a);
    NotesAre(b);
    assert forall k :: 0 <= k < |a| ==> Notes(a)[k] == Note(a[k]);
    assert forall k :: 0 <= k < |b| ==> Notes(b)[k] == Note(b[k]);
  }

  ghost predicate Full(e: Entry) {
    e.heading.Some? || e.items != []
  }

  lemma EntryStarts(e: Entry, x: seq<Line>)
    requires Full(e)
    ensures var lines, h := EntryLines(e) + x, if e.heading.Some? then 1 else 0;
            && |lines| >= 1
            && lines[0] == (if e.heading.Some? then Group(e.heading.value) else Note(e.items[0]))
            && lines[h..] == Notes(e.items) + x
  {
  }

  lemma SameFirst(e: Entry, x: seq<Line>, f: Entry, y: seq<Line>)
    requires Full(e) && Full(f) && EntryLines(e) + x == EntryLines(f) + y
    requires (x == [] || x[0].Group?) && (y == [] || y[0].Group?)
    ensures e == f && x == y
  {
    EntryStarts(e, x);
    EntryStarts(f, y);
    NotesAre(e.items);
    NotesAre(f.items);
    OneCut(Notes(e.items), x, Notes(f.items), y, (line: Line) => line.Group?);
    SameNotes(e.items, f.items);
  }

  ghost predicate Headed(entries: seq<Entry>) {
    forall k :: 0 <= k < |entries| ==> entries[k].heading.Some?
  }

  lemma HeadedStarts(entries: seq<Entry>)
    requires Headed(entries)
    ensures if entries == [] then EntriesLines(entries) == []
            else EntriesLines(entries) != [] && EntriesLines(entries)[0].Group?
  {
    if entries != [] {
      EntryStarts(entries[0], EntriesLines(entries[1..]));
    }
  }

  lemma {:induction false} SameEntries(a: seq<Entry>, b: seq<Entry>)
    requires WellFormed(a) && WellFormed(b) && EntriesLines(a) == EntriesLines(b)
    ensures a == b
  {
    if a != [] {
      EntryStarts(a[0], EntriesLines(a[1..]));
      HeadedStarts(a[1..]);
    }
    if b != [] {
      EntryStarts(b[0], EntriesLines(b[1..]));
      HeadedStarts(b[1..]);
    }
    if a != [] && b != [] {
      SameFirst(a[0], EntriesLines(a[1..]), b[0], EntriesLines(b[1..]));
      SameEntries(a[1..], b[1..]);
      assert a == [a[0]] + a[1..] && b == [b[0]] + b[1..];
    }
  }

  lemma {:induction false} SectionStarts(sections: seq<Section>)
    requires sections != []
    ensures Lines(sections) == [Release(sections[0].version, sections[0].date)]
                               + (EntriesLines(sections[0].entries) + Lines(sections[1..]))
  {
    assert Lines(sections) == SectionLines(sections[0]) + Lines(sections[1..]);
  }

  lemma {:induction false} LinesStart(sections: seq<Section>)
    ensures Lines(sections) == [] || Lines(sections)[0].Release?
    ensures Lines(sections) == [] <==> sections == []
  {
    if sections != [] {
      SectionStarts(sections);
    }
  }

  lemma SameFirstSection(a: seq<Section>, b: seq<Section>)
    requires a != [] && b != [] && Lines(a) == Lines(b)
    requires WellFormed(a[0].entries) && WellFormed(b[0].entries)
    ensures a[0] == b[0] && Lines(a[1..]) == Lines(b[1..])
  {
    SectionStarts(a);
    SectionStarts(b);
    LinesStart(a[1..]);
    LinesStart(b[1..]);
    EntriesAre(a[0].entries);
    EntriesAre(b[0].entries);
    assert Lines(a)[1..] == EntriesLines(a[0].entries) + Lines(a[1..]);
    assert Lines(b)[1..] == EntriesLines(b[0].entries) + Lines(b[1..]);
    OneCut(EntriesLines(a[0].entries), Lines(a[1..]), EntriesLines(b[0].entries), Lines(b[1..]),
           (line: Line) => line.Release?);
    SameEntries(a[0].entries, b[0].entries);
  }

  /** The lines of a page say all there is to say: two readings of them are the same. */
  lemma {:induction false} SameSections(a: seq<Section>, b: seq<Section>)
    requires forall s :: s in a || s in b ==> WellFormed(s.entries)
    requires Lines(a) == Lines(b)
    ensures a == b
  {
    LinesStart(a);
    LinesStart(b);
    if a != [] && b != [] {
      SameFirstSection(a, b);
      SameSections(a[1..], b[1..]);
      assert a == [a[0]] + a[1..] && b == [b[0]] + b[1..];
    }
  }
}
