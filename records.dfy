/**
 * Translation of OTXv2 pulses into lines of a Zeek Intel file: the body of
 * the loops in `main` of scripts/zeek-otx.py, stated as functions.
 */
module Records {
  import opened Wrappers
  import opened Text
  import opened IntelTypes

  /** One indicator of a pulse: its raw value and its OTXv2 type code. */
  datatype Indicator = Indicator(indicator: string, kind: string)

  /** The fields of a pulse the script reads. */
  datatype Pulse = Pulse(
    name: string,
    id: string,
    authorName: string,
    references: seq<string>,
    indicators: seq<Indicator>)

  /** The first line of every Intel file the script writes (spelled column by column). */
  const Header: string :=
    "#fields" + "\t" + "indicator" + "\t" + "indicator_type" + "\t" + "meta.source" + "\t"
    + "meta.url" + "\t" + "meta.do_notice" + "\t" + "meta.if_in\n"

  /** The columns the header declares, after the leading `#fields` marker. */
  const HeaderColumns: seq<string> :=
    ["#fields", "indicator", "indicator_type", "meta.source", "meta.url", "meta.do_notice", "meta.if_in\n"]

  /** The reference URL of a pulse that lists no references. */
  const FallbackUrl: string := "https://otx.alienvault.com"

  /** The constant `meta.if_in` field. */
  const IfIn: string := "-"

  /** What separates the scheme of a URL from the rest. */
  const SchemeSeparator: string := "://"

  /** The description before tabs are replaced. */
  function RawDescription(p: Pulse): string
  {
    "AlienVault OTXv2 - " + p.name + " ID: " + p.id + " Author: " + p.authorName
  }

  /** The `meta.source` field: the raw description with every tab turned into a space. */
  function Description(p: Pulse): (d: string)
    ensures '\t' !in d
    ensures |d| == |RawDescription(p)|
    ensures forall i :: 0 <= i < |d| && RawDescription(p)[i] != '\t' ==> d[i] == RawDescription(p)[i]
    ensures forall i :: 0 <= i < |d| && RawDescription(p)[i] == '\t' ==> d[i] == ' '
  {
    ReplaceChar(RawDescription(p), '\t', ' ')
  }

  /** A pulse whose name, id and author hold no tab is described verbatim. */
  lemma DescriptionVerbatim(p: Pulse)
    requires '\t' !in p.name && '\t' !in p.id && '\t' !in p.authorName
    ensures Description(p) == RawDescription(p)
  {
    var raw := RawDescription(p);
    forall i | 0 <= i < |raw| ensures raw[i] != '\t' {
      assert raw[i] in raw;
    }
  }

  /** The `meta.url` field: the first reference, or the fallback when there is none. */
  function ReferenceUrl(p: Pulse): (u: string)
    ensures p.references != [] ==> u == p.references[0]
    ensures p.references == [] ==> u == FallbackUrl
  {
    if |p.references| > 0 then p.references[0] else FallbackUrl
  }

  /**
   * The value with its scheme prefix deleted, as
   * `url.geturl().replace('{0}://'.format(url.scheme), '')` does. The scheme
   * is taken to be the text before the first "://"; every non-overlapping
   * occurrence of scheme + "://" is then deleted.
   */
  function StripScheme(v: string): (r: string)
    ensures |r| <= |v|
    ensures forall c :: c in r ==> c in v
    ensures !Occurs(v, SchemeSeparator) ==> r == v
  {
    match IndexOf(v, SchemeSeparator)
    case None => v
    case Some(i) =>
      RemoveAllShrinks(v, v[..i] + SchemeSeparator);
      RemoveAll(v, v[..i] + SchemeSeparator)
  }

  /**
   * The scheme is the text before the first "://": stripping deletes the
   * leading `scheme://` and every later occurrence of `scheme://` in the
   * rest, as `RemoveAllFirst` describes.
   */
  lemma StripSchemeAt(v: string)
    requires Occurs(v, SchemeSeparator)
    ensures var i := IndexOf(v, SchemeSeparator).value;
      StripScheme(v) == RemoveAll(v[i + 3..], v[..i] + SchemeSeparator)
  {
    var i := IndexOf(v, SchemeSeparator).value;
    var pat := v[..i] + SchemeSeparator;
    assert v[..|pat|] == pat by {
      assert v[..|pat|] == v[..i] + v[i..i + 3];
    }
    assert v[|pat|..] == v[i + 3..];
  }

  /** A value `scheme://rest` with a colon-free scheme becomes `rest` with every `scheme://` deleted. */
  lemma {:induction false} StripSchemeRest(scheme: string, rest: string)
    requires ':' !in scheme
    ensures StripScheme(scheme + SchemeSeparator + rest) == RemoveAll(rest, scheme + SchemeSeparator)
  {
    var v := scheme + SchemeSeparator + rest;
    var n := |scheme|;
    assert v[n..n + 3] == SchemeSeparator;
    assert OccursAt(v, SchemeSeparator, n);
    forall j: nat | j < n ensures !OccursAt(v, SchemeSeparator, j) {
      assert v[j] == scheme[j];
      assert scheme[j] in scheme;
      if j + 3 <= |v| {
        assert v[j..j + 3][0] == v[j];
      }
    }
    assert IndexOf(v, SchemeSeparator) == Some(n);
    StripSchemeAt(v);
    assert v[..n] == scheme;
    assert v[n + 3..] == rest;
  }

  /** A value `scheme://rest` loses exactly its `scheme://` prefix when the rest does not repeat it. */
  lemma StripSchemePrefix(scheme: string, rest: string)
    requires ':' !in scheme
    requires !Occurs(rest, scheme + SchemeSeparator)
    ensures StripScheme(scheme + SchemeSeparator + rest) == rest
  {
    StripSchemeRest(scheme, rest);
    RemoveAllAbsent(rest, scheme + SchemeSeparator);
  }

  /** `https://example.com/a` keeps only host and path. */
  lemma StripSchemeExample()
    ensures StripScheme("https" + "://" + "example.com/a") == "example.com/a"
  {
    AbsentChar("example.com/a", "https" + SchemeSeparator, ':');
    StripSchemePrefix("https", "example.com/a");
  }

  /** A URL that repeats its scheme further on loses every `scheme://`: `h://a?u=h://b` becomes `a?u=b`. */
  lemma StripSchemeRepeated()
    ensures StripScheme("h" + "://" + ("a?u=" + ("h" + "://") + "b")) == "a?u=" + "b"
  {
    var pat := "h" + SchemeSeparator;
    var rest := "a?u=" + pat + "b";
    StripSchemeRest("h", rest);
    assert OccursAt(rest, pat, 4) by {
      assert rest[4..8] == pat;
    }
    forall j: nat | j < 4 ensures !OccursAt(rest, pat, j) {
      assert rest[j] != 'h';
      if j + 4 <= |rest| {
        assert rest[j..j + 4][0] == rest[j];
      }
    }
    assert FirstAt(rest, pat, 4);
    RemoveAllFirst(rest, pat, 4);
    assert rest[..4] == "a?u=" && rest[8..] == "b";
  }

  /** The `indicator` field: URL indicators lose their scheme, all others are written as they are. */
  function RecordValue(value: string, t: ZeekType): (v: string)
    ensures t != Url ==> v == value
    ensures t == Url ==> v == StripScheme(value)
  {
    NameInjective(t, Url);
    if Name(t) == "Intel::URL" then StripScheme(value) else value
  }

  /** The six fields of the record for one indicator of type `t`. */
  function RecordFields(p: Pulse, ind: Indicator, t: ZeekType, doNotice: string): seq<string>
  {
    [RecordValue(ind.indicator, t), Name(t), Description(p), ReferenceUrl(p), doNotice, IfIn + "\n"]
  }

  /** The record line for one indicator of type `t`: its fields joined by tabs. */
  function RecordLine(p: Pulse, ind: Indicator, t: ZeekType, doNotice: string): (line: string)
    ensures |line| >= 3 && line[|line| - 3..] == "\t-\n"
  {
    var fields := RecordFields(p, ind, t, doNotice);
    JoinSnoc('\t', fields[..5], fields[5]);
    assert fields[..5] + [fields[5]] == fields;
    Join('\t', fields)
  }

  /** A record line spelled out: value, type, description, URL and notice flag, each followed by a tab, then `-`. */
  lemma RecordLineSpelledOut(p: Pulse, ind: Indicator, t: ZeekType, doNotice: string)
    ensures RecordLine(p, ind, t, doNotice)
            == RecordValue(ind.indicator, t) + "\t" + Name(t) + "\t" + Description(p) + "\t"
               + ReferenceUrl(p) + "\t" + doNotice + "\t" + "-\n"
  {
    var f := RecordFields(p, ind, t, doNotice);
    assert Join('\t', f[..1]) == f[0];
    JoinStep(f, 1, f[0], f[1]);
    JoinStep(f, 2, f[0] + "\t" + f[1], f[2]);
    JoinStep(f, 3, f[0] + "\t" + f[1] + "\t" + f[2], f[3]);
    JoinStep(f, 4, f[0] + "\t" + f[1] + "\t" + f[2] + "\t" + f[3], f[4]);
    JoinStep(f, 5, f[0] + "\t" + f[1] + "\t" + f[2] + "\t" + f[3] + "\t" + f[4], f[5]);
    assert f[..6] == f;
  }

  /**
   * When the value, the reference URL and the notice flag hold no tab, a
   * record line splits back into exactly its six fields. (Only the
   * description is sanitised, so this is what the tab-free fields guarantee.)
   */
  lemma RecordLineFields(p: Pulse, ind: Indicator, t: ZeekType, doNotice: string)
    requires '\t' !in ind.indicator && '\t' !in ReferenceUrl(p) && '\t' !in doNotice
    ensures Split(RecordLine(p, ind, t, doNotice), '\t') == RecordFields(p, ind, t, doNotice)
    ensures |Split(RecordLine(p, ind, t, doNotice), '\t')| == 6
  {
    var fields := RecordFields(p, ind, t, doNotice);
    NameShape(t);
    assert '\t' !in IfIn + "\n";
    forall k | 0 <= k < |fields| ensures '\t' !in fields[k] {
    }
    SplitJoin('\t', fields);
  }

  /** The header is the tab-join of its seven columns. */
  lemma HeaderIsJoin()
    ensures Join('\t', HeaderColumns) == Header
  {
    var c := HeaderColumns;
    assert Join('\t', c[..1]) == c[0];
    JoinStep(c, 1, c[0], c[1]);
    JoinStep(c, 2, c[0] + "\t" + c[1], c[2]);
    JoinStep(c, 3, c[0] + "\t" + c[1] + "\t" + c[2], c[3]);
    JoinStep(c, 4, c[0] + "\t" + c[1] + "\t" + c[2] + "\t" + c[3], c[4]);
    JoinStep(c, 5, c[0] + "\t" + c[1] + "\t" + c[2] + "\t" + c[3] + "\t" + c[4], c[5]);
    JoinStep(c, 6, c[0] + "\t" + c[1] + "\t" + c[2] + "\t" + c[3] + "\t" + c[4] + "\t" + c[5], c[6]);
    assert c[..7] == c;
  }

  /** Extends a join of the first `k` parts by the next part. */
  lemma JoinStep(parts: seq<string>, k: nat, prefix: string, next: string)
    requires 1 <= k < |parts|
    requires Join('\t', parts[..k]) == prefix && parts[k] == next
    ensures Join('\t', parts[..k + 1]) == prefix + "\t" + next
  {
    JoinSnoc('\t', parts[..k], parts[k]);
    assert parts[..k] + [parts[k]] == parts[..k + 1];
  }

  /**
   * The header splits back into its seven entries: the `#fields` marker and
   * one column per field of a record (the last entry carries the newline).
   */
  lemma HeaderColumnsSplit()
    ensures Split(Header, '\t') == HeaderColumns
    ensures forall p, ind, t, doNotice :: |HeaderColumns| == 1 + |RecordFields(p, ind, t, doNotice)|
  {
    HeaderIsJoin();
    forall k | 0 <= k < |HeaderColumns| ensures '\t' !in HeaderColumns[k] {
    }
    SplitJoin('\t', HeaderColumns);
  }

  /** The lines one indicator contributes (`LineForCases`). */
  function LineFor(p: Pulse, ind: Indicator, doNotice: string): seq<string>
  {
    match MapIndicatorType(ind.kind)
    case None => []
    case Some(t) => [RecordLine(p, ind, t, doNotice)]
  }

  /** An indicator of an unsupported type contributes no line; one of a supported type contributes its record. */
  lemma LineForCases(p: Pulse, ind: Indicator, doNotice: string)
    ensures LineFor(p, ind, doNotice) == [] <==> MapIndicatorType(ind.kind).None?
    ensures MapIndicatorType(ind.kind).Some? ==>
              LineFor(p, ind, doNotice) == [RecordLine(p, ind, MapIndicatorType(ind.kind).value, doNotice)]
  {
  }

  /** The record lines of a run of indicators of pulse `p`, in order. */
  function IndicatorLines(p: Pulse, inds: seq<Indicator>, doNotice: string): seq<string>
  {
    if inds == [] then []
    else IndicatorLines(p, inds[..|inds| - 1], doNotice) + LineFor(p, inds[|inds| - 1], doNotice)
  }

  /** One more indicator of a prefix: its lines follow those already written. */
  lemma IndicatorLinesPrefixStep(written: seq<string>, p: Pulse, j: nat, doNotice: string)
    requires j < |p.indicators|
    ensures written + IndicatorLines(p, p.indicators[..j + 1], doNotice)
            == (written + IndicatorLines(p, p.indicators[..j], doNotice)) + LineFor(p, p.indicators[j], doNotice)
  {
    assert p.indicators[..j + 1][..j] == p.indicators[..j];
  }

  /** The record lines of one pulse. */
  function PulseLines(p: Pulse, doNotice: string): seq<string>
  {
    IndicatorLines(p, p.indicators, doNotice)
  }

  /** The indicators whose type is supported, in their original order. */
  function Mapped(inds: seq<Indicator>): seq<Indicator>
  {
    if inds == [] then []
    else
      var last := inds[|inds| - 1];
      Mapped(inds[..|inds| - 1]) + (if MapIndicatorType(last.kind).Some? then [last] else [])
  }

  /** Exactly the supported indicators survive the filter. */
  lemma {:induction false} MappedMembers(inds: seq<Indicator>)
    ensures forall x :: x in Mapped(inds) <==> x in inds && MapIndicatorType(x.kind).Some?
  {
    if inds != [] {
      var init := inds[..|inds| - 1];
      MappedMembers(init);
      assert inds == init + [inds[|inds| - 1]];
    }
  }

  /** Filtering commutes with concatenation, so the original order is kept. */
  lemma {:induction false} MappedAppend(a: seq<Indicator>, b: seq<Indicator>)
    ensures Mapped(a + b) == Mapped(a) + Mapped(b)
  {
    if b == [] {
      assert a + b == a;
    } else {
      var init := b[..|b| - 1];
      assert (a + b)[..|a + b| - 1] == a + init;
      MappedAppend(a, init);
    }
  }

  /** Record lines of a concatenation are the concatenated record lines. */
  lemma {:induction false} IndicatorLinesAppend(p: Pulse, a: seq<Indicator>, b: seq<Indicator>, doNotice: string)
    ensures IndicatorLines(p, a + b, doNotice) == IndicatorLines(p, a, doNotice) + IndicatorLines(p, b, doNotice)
  {
    if b == [] {
      assert a + b == a;
    } else {
      var init, last := b[..|b| - 1], b[|b| - 1];
      assert (a + b)[..|a + b| - 1] == a + init && (a + b)[|a + b| - 1] == last;
      IndicatorLinesAppend(p, a, init, doNotice);
      var l := LineFor(p, last, doNotice);
      calc {
        IndicatorLines(p, a + b, doNotice);
        IndicatorLines(p, a + init, doNotice) + l;
        IndicatorLines(p, a, doNotice) + IndicatorLines(p, init, doNotice) + l;
        IndicatorLines(p, a, doNotice) + (IndicatorLines(p, init, doNotice) + l);
      }
    }
  }

  /**
   * One line per supported indicator, in the pulse's indicator order: the
   * k-th line is the record of the k-th supported indicator.
   */
  lemma {:induction false} IndicatorLinesAreMapped(p: Pulse, inds: seq<Indicator>, doNotice: string)
    ensures |IndicatorLines(p, inds, doNotice)| == |Mapped(inds)|
    ensures forall k :: 0 <= k < |Mapped(inds)| ==>
              MapIndicatorType(Mapped(inds)[k].kind).Some? &&
              IndicatorLines(p, inds, doNotice)[k] ==
                RecordLine(p, Mapped(inds)[k], MapIndicatorType(Mapped(inds)[k].kind).value, doNotice)
  {
    if inds != [] {
      IndicatorLinesAreMapped(p, inds[..|inds| - 1], doNotice);
    }
  }

  /** Concatenation of lines into file text. */
  function Concat(lines: seq<string>): string
  {
    if lines == [] then "" else Concat(lines[..|lines| - 1]) + lines[|lines| - 1]
  }

  lemma {:induction false} ConcatAppend(a: seq<string>, b: seq<string>)
    ensures Concat(a + b) == Concat(a) + Concat(b)
  {
    if b == [] {
      assert a + b == a;
    } else {
      var init := b[..|b| - 1];
      assert (a + b)[..|a + b| - 1] == a + init;
      ConcatAppend(a, init);
    }
  }

  /** The record lines of a stream of pulses, pulse after pulse. */
  function AllLines(ps: seq<Pulse>, doNotice: string): seq<string>
  {
    if ps == [] then [] else AllLines(ps[..|ps| - 1], doNotice) + PulseLines(ps[|ps| - 1], doNotice)
  }

  lemma {:induction false} AllLinesAppend(ps: seq<Pulse>, qs: seq<Pulse>, doNotice: string)
    ensures AllLines(ps + qs, doNotice) == AllLines(ps, doNotice) + AllLines(qs, doNotice)
  {
    if qs == [] {
      assert ps + qs == ps;
    } else {
      var init := qs[..|qs| - 1];
      assert (ps + qs)[..|ps + qs| - 1] == ps + init;
      AllLinesAppend(ps, init, doNotice);
    }
  }

  /** The number of supported indicators over a stream of pulses. */
  function MappedTotal(ps: seq<Pulse>): nat
  {
    if ps == [] then 0 else MappedTotal(ps[..|ps| - 1]) + |Mapped(ps[|ps| - 1].indicators)|
  }

  /** The lines of the whole file: the header, then every pulse's records in order. */
  function OutputLines(ps: seq<Pulse>, doNotice: string): (lines: seq<string>)
    ensures |lines| >= 1 && lines[0] == Header
  {
    [Header] + AllLines(ps, doNotice)
  }

  /** One more pulse of a prefix: its lines follow those already written. */
  lemma AllLinesPrefixStep(written: seq<string>, ps: seq<Pulse>, i: nat, doNotice: string)
    requires i < |ps|
    ensures written + AllLines(ps[..i + 1], doNotice)
            == (written + AllLines(ps[..i], doNotice)) + PulseLines(ps[i], doNotice)
  {
    assert ps[..i + 1][..i] == ps[..i];
  }

  /** The header comes first and is followed by one line per supported indicator. */
  lemma {:induction false} OutputLinesCount(ps: seq<Pulse>, doNotice: string)
    ensures |OutputLines(ps, doNotice)| == 1 + MappedTotal(ps)
  {
    if ps != [] {
      var init := ps[..|ps| - 1];
      OutputLinesCount(init, doNotice);
      IndicatorLinesAreMapped(ps[|ps| - 1], ps[|ps| - 1].indicators, doNotice);
    }
  }

  /** The text of the Intel file. */
  function FileContents(ps: seq<Pulse>, doNotice: string): (text: string)
    ensures |Header| <= |text| && text[..|Header|] == Header
  {
    ConcatAppend([Header], AllLines(ps, doNotice));
    assert Concat([Header]) == Header by {
      assert [Header][..0] == [];
    }
    Concat(OutputLines(ps, doNotice))
  }

  /** Writing one more indicator's lines extends the text by exactly those lines. */
  lemma IndicatorTextSnoc(p: Pulse, inds: seq<Indicator>, ind: Indicator, doNotice: string)
    ensures Concat(IndicatorLines(p, inds + [ind], doNotice))
            == Concat(IndicatorLines(p, inds, doNotice)) + Concat(LineFor(p, ind, doNotice))
  {
    assert (inds + [ind])[..|inds|] == inds;
    ConcatAppend(IndicatorLines(p, inds, doNotice), LineFor(p, ind, doNotice));
  }

  /** The file of no pulses is the header alone. */
  lemma FileContentsEmpty(doNotice: string)
    ensures FileContents([], doNotice) == Header
  {
    assert OutputLines([], doNotice) == [Header];
    assert [Header][..0] == [];
    assert Concat([Header]) == "" + Header;
  }

  /** Writing one more pulse extends the file by exactly that pulse's records. */
  lemma FileContentsSnoc(ps: seq<Pulse>, p: Pulse, doNotice: string)
    ensures FileContents(ps + [p], doNotice) == FileContents(ps, doNotice) + Concat(PulseLines(p, doNotice))
  {
    assert (ps + [p])[..|ps|] == ps;
    assert AllLines(ps + [p], doNotice) == AllLines(ps, doNotice) + PulseLines(p, doNotice);
    assert [Header] + AllLines(ps + [p], doNotice) == ([Header] + AllLines(ps, doNotice)) + PulseLines(p, doNotice);
    ConcatAppend([Header] + AllLines(ps, doNotice), PulseLines(p, doNotice));
  }

  /** A pulse without references, with one IPv4 indicator and one of an unknown type. */
  function ExamplePulse(): Pulse
  {
    Pulse("P1", "42", "A", [], [Indicator("1.2.3.4", "IPv4"), Indicator("badtype", "Unknown")])
  }

  /** The record that pulse's IPv4 indicator becomes. */
  lemma ExampleRecord()
    ensures RecordLine(ExamplePulse(), Indicator("1.2.3.4", "IPv4"), Addr, "T")
            == "1.2.3.4" + "\t" + "Intel::ADDR" + "\t"
               + ("AlienVault OTXv2 - " + "P1" + " ID: " + "42" + " Author: " + "A") + "\t"
               + "https://otx.alienvault.com" + "\t" + "T" + "\t" + "-\n"
  {
    var p := ExamplePulse();
    DescriptionVerbatim(p);
    RecordLineSpelledOut(p, Indicator("1.2.3.4", "IPv4"), Addr, "T");
  }

  /** Two indicators give the lines of the first, then those of the second. */
  lemma IndicatorLinesPair(p: Pulse, a: Indicator, b: Indicator, doNotice: string)
    ensures IndicatorLines(p, [a, b], doNotice) == LineFor(p, a, doNotice) + LineFor(p, b, doNotice)
  {
    assert [a, b][..1] == [a];
    assert [a][..0] == [];
    assert IndicatorLines(p, [a], doNotice) == [] + LineFor(p, a, doNotice);
  }

  /** Indicator by indicator: the IPv4 one becomes a record, the unknown one nothing. */
  lemma ExampleLineFor()
    ensures LineFor(ExamplePulse(), Indicator("badtype", "Unknown"), "T") == []
    ensures LineFor(ExamplePulse(), Indicator("1.2.3.4", "IPv4"), "T")
            == [RecordLine(ExamplePulse(), Indicator("1.2.3.4", "IPv4"), Addr, "T")]
  {
    MapIndicatorTypeTable("Unknown");
    MapIndicatorTypeTable("IPv4");
  }

  /** That pulse yields exactly one record: the indicator of unknown type is dropped. */
  lemma ExamplePulseLines()
    ensures PulseLines(ExamplePulse(), "T") == [RecordLine(ExamplePulse(), Indicator("1.2.3.4", "IPv4"), Addr, "T")]
  {
    ExampleLineFor();
    IndicatorLinesPair(ExamplePulse(), Indicator("1.2.3.4", "IPv4"), Indicator("badtype", "Unknown"), "T");
  }

  /**
   * The file for that pulse alone: the header and exactly one record, for
   * the IPv4 indicator.
   */
  lemma EndToEndExample()
    ensures FileContents([ExamplePulse()], "T")
            == Header + ("1.2.3.4" + "\t" + "Intel::ADDR" + "\t"
                         + ("AlienVault OTXv2 - " + "P1" + " ID: " + "42" + " Author: " + "A") + "\t"
                         + "https://otx.alienvault.com" + "\t" + "T" + "\t" + "-\n")
  {
    var p := ExamplePulse();
    var line := RecordLine(p, Indicator("1.2.3.4", "IPv4"), Addr, "T");
    ExampleRecord();
    ExamplePulseLines();
    assert [p][..0] == [];
    assert AllLines([p], "T") == [line];
    ConcatAppend([Header], [line]);
    assert [Header][..0] == [];
    assert [line][..0] == [];
  }
}
