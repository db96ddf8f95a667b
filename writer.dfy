/**
 * The driver `main` of scripts/zeek-otx.py: write the header and every
 * record to `outfile + '.tmp'`, then rename it over `outfile`. The two files
 * are fields of one object; configuration and clock values are parameters.
 */
module Writer {
  import opened Wrappers
  import opened IntelTypes
  import opened Text
  import opened Records
  import opened Fetch

  /** The staging file and the output file, as their contents (`None` when absent). */
  class IntelFiles {
    var staging: Option<string>
    var output: Option<string>

    constructor (existing: Option<string>)
      ensures staging == None && output == existing
    {
      staging := None;
      output := existing;
    }

    /** `open(outfile + '.tmp', 'wb')`, which truncates, followed by `f.write(_HEADER)`. */
    method OpenStaging()
      modifies this`staging
      ensures staging == Some(Header)
    {
      staging := Some(Header);
    }

    /** `f.write(text)` on the open staging file. */
    method Append(text: string)
      requires staging.Some?
      modifies this`staging
      ensures staging == Some(old(staging).value + text)
    {
      staging := Some(staging.value + text);
    }

    /** `os.rename(outfile + '.tmp', outfile)`. */
    method Promote()
      requires staging.Some?
      modifies this
      ensures output == old(staging) && staging == None
    {
      output := staging;
      staging := None;
    }

    /**
     * The body of the inner loop of `main`: the record of one indicator, if
     * its type is supported. `lines` are the lines written so far.
     */
    method WriteIndicator(p: Pulse, description: string, indicator: Indicator, doNotice: string,
                          ghost lines: seq<string>)
      requires staging == Some(Concat(lines)) && description == Description(p)
      modifies this`staging
      ensures staging == Some(Concat(lines + LineFor(p, indicator, doNotice)))
    {
      var zeekType := MapIndicatorType(indicator.kind);
      if zeekType.None? {
        assert lines + LineFor(p, indicator, doNotice) == lines;
        return;
      }
      var url := if |p.references| > 0 then p.references[0] else FallbackUrl;
      var fields := [indicator.indicator, Name(zeekType.value), description, url, doNotice, IfIn + "\n"];
      if fields[1] == "Intel::URL" {
        fields := fields[0 := StripScheme(fields[0])];
      }
      NameInjective(zeekType.value, Url);
      assert fields == RecordFields(p, indicator, zeekType.value, doNotice);
      var line := Join('\t', fields);
      assert (lines + [line])[..|lines|] == lines;
      Append(line);
    }

    /** The inner loop of `main` for one pulse: one record per supported indicator. */
    method WritePulse(p: Pulse, doNotice: string, ghost lines: seq<string>)
      requires staging == Some(Concat(lines))
      modifies this`staging
      ensures staging == Some(Concat(lines + PulseLines(p, doNotice)))
    {
      var description := Description(p);
      var j := 0;
      assert lines + IndicatorLines(p, p.indicators[..0], doNotice) == lines;
      while j < |p.indicators|
        invariant 0 <= j <= |p.indicators|
        invariant staging == Some(Concat(lines + IndicatorLines(p, p.indicators[..j], doNotice)))
      {
        IndicatorLinesPrefixStep(lines, p, j, doNotice);
        WriteIndicator(p, description, p.indicators[j], doNotice,
                       lines + IndicatorLines(p, p.indicators[..j], doNotice));
        j := j + 1;
      }
      assert p.indicators[..j] == p.indicators;
    }

    /** The outer loop of `main`: the records of every pulse, after the header. */
    method WritePulses(pulses: seq<Pulse>, doNotice: string)
      requires staging == Some(Header)
      modifies this`staging
      ensures staging == Some(FileContents(pulses, doNotice))
    {
      var i := 0;
      assert Concat([Header]) == Header by {
        assert [Header][..0] == [];
      }
      assert [Header] + AllLines(pulses[..0], doNotice) == [Header];
      while i < |pulses|
        invariant 0 <= i <= |pulses|
        invariant staging == Some(Concat([Header] + AllLines(pulses[..i], doNotice)))
      {
        AllLinesPrefixStep([Header], pulses, i, doNotice);
        WritePulse(pulses[i], doNotice, [Header] + AllLines(pulses[..i], doNotice));
        i := i + 1;
      }
      assert pulses[..i] == pulses;
    }

    /**
     * `main`: stream the pulses into the staging file, then promote it. If
     * fetching exits or fails, the staging file keeps what was written and
     * the output file is left as it was. The exit status is 0 on success and
     * 1 otherwise; `message` is what `_get` printed before exiting, if anything.
     */
    method Run(api: Api, key: string, mtime: string, doNotice: string, ghost bound: nat)
      returns (exitCode: int, message: Option<string>)
      requires PagesEnd(api, key, mtime, DefaultLimit, bound)
      modifies this
      ensures var t := IterTrace(api, key, mtime, DefaultLimit, bound);
        && exitCode == (if t.stop == Exhausted then 0 else 1)
        && (t.stop.Exited? ==> message == Some(t.stop.message))
        && (!t.stop.Exited? ==> message == None)
        && (t.stop == Exhausted ==>
              output == Some(FileContents(Results(t.pages), doNotice)) && staging == None)
        && (t.stop != Exhausted ==>
              output == old(output) && staging == Some(FileContents(Results(t.pages), doNotice)))
    {
      OpenStaging();
      var pulses, requests, stop := IterPulses(api, key, mtime, DefaultLimit, bound);
      IterTraceChained(api, key, mtime, DefaultLimit, bound);
      WritePulses(pulses, doNotice);
      if stop == Exhausted {
        Promote();
      }
      exitCode := match stop
        case Exhausted => 0
        case Exited(code, _) => code
        case Crashed => 1;
      message := match stop
        case Exited(_, text) => Some(text)
        case _ => None;
    }
  }
}
