/** The domain record and the two messages of the program: an upcoming
    episode with its display line, and the error raised when one of its
    fields is absent. */
module Episodes {
  import opened Text

  /** One upcoming episode. The four fields hold the raw, untrimmed text of
      the matched list item's first four element children. */
  datatype Episode = Episode(series: string, number: string, title: string, countdown: string)

  /** The error for a matched list item that lacks a child; `field` names the
      first absent one. */
  datatype DataNotFoundError = DataNotFoundError(field: string)

  const MissingDataPrefix: string := "Missing data: "
  const NoEpisodeSuffix: string := ": no episode scheduled to air"

  /** How a DataNotFoundError displays. */
  function MissingDataMessage(e: DataNotFoundError): (r: string)
    ensures |r| == |MissingDataPrefix| + |e.field|
    ensures r[..|MissingDataPrefix|] == "Missing data: "
    ensures r[|MissingDataPrefix|..] == e.field
  {
    MissingDataPrefix + e.field
  }

  /** How an episode displays: `series number: "title" (countdown)`, each
      field trimmed of surrounding whitespace. */
  function FormatEpisode(e: Episode, isWs: char -> bool): (r: string)
    ensures
      var s, n, t, c := Trim(e.series, isWs), Trim(e.number, isWs), Trim(e.title, isWs), Trim(e.countdown, isWs);
      var i := |s| + 1;
      var j := i + |n| + 3;
      var k := j + |t| + 3;
      && |r| == k + |c| + 1
      && r[..|s|] == s && r[|s|] == ' '
      && r[i..i + |n|] == n && r[i + |n|..j] == ": \""
      && r[j..j + |t|] == t && r[j + |t|..k] == "\" ("
      && r[k..k + |c|] == c && r[k + |c|] == ')'
  {
    Trim(e.series, isWs) + " " + Trim(e.number, isWs) + ": \"" + Trim(e.title, isWs)
      + "\" (" + Trim(e.countdown, isWs) + ")"
  }

  /** The line printed for a series whose page lists no upcoming episode. */
  function NoEpisodeLine(series: string): (r: string)
    ensures |r| == |series| + |NoEpisodeSuffix|
    ensures r[..|series|] == series
    ensures r[|series|..] == ": no episode scheduled to air"
  {
    series + NoEpisodeSuffix
  }

  /** The episode with each field trimmed. */
  function Trimmed(e: Episode, isWs: char -> bool): Episode
  {
    Episode(Trim(e.series, isWs), Trim(e.number, isWs), Trim(e.title, isWs), Trim(e.countdown, isWs))
  }

  /** Distinct missing fields give distinct messages: the message tells
      which field is absent. */
  lemma MissingDataMessageNamesField(a: DataNotFoundError, b: DataNotFoundError)
    ensures MissingDataMessage(a) == MissingDataMessage(b) ==> a == b
  {
    if MissingDataMessage(a) == MissingDataMessage(b) {
      assert MissingDataMessage(b)[|MissingDataPrefix|..] == b.field;
    }
  }

  /** The no-episode line determines the identifier it was made for. */
  lemma NoEpisodeLineNamesSeries(a: string, b: string)
    ensures NoEpisodeLine(a) == NoEpisodeLine(b) ==> a == b
  {
    if NoEpisodeLine(a) == NoEpisodeLine(b) {
      assert |a| == |b|;
      assert NoEpisodeLine(b)[..|b|] == b;
    }
  }

  /** A raw field seen as its core text with whitespace on either side. */
  datatype PaddedText = PaddedText(pre: string, core: string, post: string)
  {
    function Raw(): string { pre + core + post }

    /** Only whitespace around the core, and the core neither starts nor ends
        with whitespace (it may hold whitespace inside). */
    ghost predicate WellPadded(isWs: char -> bool)
    {
      (forall k :: 0 <= k < |pre| ==> isWs(pre[k])) &&
      (forall k :: 0 <= k < |post| ==> isWs(post[k])) &&
      (core == [] || (!isWs(core[0]) && !isWs(core[|core| - 1])))
    }
  }

  /** The display line of an episode is built from the cores of its four raw
      fields: the whitespace around each field is removed and nothing else. */
  lemma FormatEpisodeStripsPadding(s: PaddedText, n: PaddedText, t: PaddedText, c: PaddedText, isWs: char -> bool)
    requires s.WellPadded(isWs) && n.WellPadded(isWs) && t.WellPadded(isWs) && c.WellPadded(isWs)
    ensures FormatEpisode(Episode(s.Raw(), n.Raw(), t.Raw(), c.Raw()), isWs)
         == s.core + " " + n.core + ": \"" + t.core + "\" (" + c.core + ")"
  {
    TrimPadded(s.pre, s.core, s.post, isWs);
    TrimPadded(n.pre, n.core, n.post, isWs);
    TrimPadded(t.pre, t.core, t.post, isWs);
    TrimPadded(c.pre, c.core, c.post, isWs);
  }

  /** Formatting ignores whitespace around the raw fields: an episode and its
      trimmed copy display the same. */
  lemma FormatEpisodeIgnoresPadding(e: Episode, isWs: char -> bool)
    ensures FormatEpisode(Trimmed(e, isWs), isWs) == FormatEpisode(e, isWs)
  {
    TrimIdempotent(e.series, isWs);
    TrimIdempotent(e.number, isWs);
    TrimIdempotent(e.title, isWs);
    TrimIdempotent(e.countdown, isWs);
  }
}
