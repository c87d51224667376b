/** The extraction step of fetching a page: from the list items the episode
    selector matched, take the last one and read its first four element
    children as the episode's fields. Parsing the page and evaluating the
    selector are done before this step; each matched item arrives as the
    sequence of the text contents of its element children. */
module Extractor {
  import opened Episodes

  /** A matched list item: the text contents of its element children, in
      document order. */
  type Node = seq<string>

  /** The names of the four fields, in the order they are read. */
  const FieldNames: seq<string> := ["series", "number", "title", "countdown"]

  /** What extraction yields: no matched item, a full episode, or the first
      field whose child is absent. */
  datatype Extraction = NoEpisode | Found(episode: Episode) | Missing(error: DataNotFoundError)

  function Last(matches: seq<Node>): Node
    requires matches != []
  {
    matches[|matches| - 1]
  }

  /** Reference definition of extraction: the last match decides, by how
      many element children it has. */
  function Extract(matches: seq<Node>): (r: Extraction)
    ensures r.NoEpisode? <==> matches == []
    ensures r.Missing? <==> matches != [] && |Last(matches)| < 4
    ensures r.Missing? ==> r.error.field == FieldNames[|Last(matches)|]
    ensures r.Found? ==>
      var item := Last(matches);
      && 4 <= |item|
      && r.episode == Episode(item[0], item[1], item[2], item[3])
  {
    if matches == [] then NoEpisode
    else
      var item := Last(matches);
      if |item| < |FieldNames| then Missing(DataNotFoundError(FieldNames[|item|]))
      else Found(Episode(item[0], item[1], item[2], item[3]))
  }

  /** The extraction as the program performs it: select the last match, then
      advance a cursor over its element children one field at a time,
      returning at the first field whose child is absent. */
  method ExtractEpisode(matches: seq<Node>) returns (r: Extraction)
    ensures r == Extract(matches)
    ensures r.NoEpisode? <==> matches == []
    ensures matches != [] && |Last(matches)| >= 4 ==>
      r == Found(Episode(Last(matches)[0], Last(matches)[1], Last(matches)[2], Last(matches)[3]))
    ensures matches != [] && |Last(matches)| < 4 ==>
      r == Missing(DataNotFoundError(FieldNames[|Last(matches)|]))
  {
    if matches == [] {
      return NoEpisode;
    }
    var item := matches[|matches| - 1];
    var cursor := 0;
    if cursor == |item| {
      return Missing(DataNotFoundError("series"));
    }
    var series := item[cursor];
    cursor := cursor + 1;
    if cursor == |item| {
      return Missing(DataNotFoundError("number"));
    }
    var number := item[cursor];
    cursor := cursor + 1;
    if cursor == |item| {
      return Missing(DataNotFoundError("title"));
    }
    var title := item[cursor];
    cursor := cursor + 1;
    if cursor == |item| {
      return Missing(DataNotFoundError("countdown"));
    }
    var countdown := item[cursor];
    return Found(Episode(series, number, title, countdown));
  }

  /** Only the last match counts: matches before it never influence the
      result. */
  lemma ExtractIgnoresEarlierMatches(earlier: seq<Node>, item: Node)
    ensures Extract(earlier + [item]) == Extract([item])
  {
    assert Last(earlier + [item]) == item;
  }

  /** Element children after the fourth are ignored. */
  lemma ExtractIgnoresExtraChildren(earlier: seq<Node>, item: Node, extra: Node)
    requires |item| >= 4
    ensures Extract(earlier + [item + extra]) == Extract(earlier + [item])
  {
    assert Last(earlier + [item + extra]) == item + extra;
    assert Last(earlier + [item]) == item;
  }

  /** An item with k < 4 children fails on field k + 1, named in order, and
      its message says which field is missing. */
  lemma ExtractMissingNamesField(matches: seq<Node>)
    requires matches != [] && |Last(matches)| < 4
    ensures Extract(matches).Missing?
    ensures |Last(matches)| == 0 ==> MissingDataMessage(Extract(matches).error) == "Missing data: series"
    ensures |Last(matches)| == 1 ==> MissingDataMessage(Extract(matches).error) == "Missing data: number"
    ensures |Last(matches)| == 2 ==> MissingDataMessage(Extract(matches).error) == "Missing data: title"
    ensures |Last(matches)| == 3 ==> MissingDataMessage(Extract(matches).error) == "Missing data: countdown"
  {
  }
}
