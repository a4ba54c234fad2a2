/** What the crawler writes for a persisted page: where the file goes, how it is named and
    what it contains. */
module Records {
  import opened Wrappers

  /** The root under which every site gets its own output directory. */
  const DataRoot: string := "data"

  /** One file written by the crawler: the directory, the file name and the whole content. */
  datatype SavedFile = SavedFile(dir: string, name: string, content: string)

  /** The three fields a persisted page is made of. */
  datatype PageRecord = PageRecord(title: string, url: string, text: string)

  /** The per-site output directory, joined under the data root as POSIX paths join: an absolute name replaces the root,
      anything else is appended after a separator. */
  function OutputDir(name: string): string {
    if |name| > 0 && name[0] == '/' then name else DataRoot + "/" + name
  }

  /** The file of a page is named after the digest of its URL, with a `.txt` extension. */
  function FileName(digest: string -> string, url: string): string {
    digest(url) + ".txt"
  }

  /** The file name gives back the URL digest it was built from, so two pages share a file name
      exactly when their URLs share a digest. */
  lemma FileNameStem(digest: string -> string, url1: string, url2: string)
    ensures var n := FileName(digest, url1);
            |n| >= 4 && n[|n| - 4..] == ".txt" && n[..|n| - 4] == digest(url1)
    ensures FileName(digest, url1) == FileName(digest, url2) <==> digest(url1) == digest(url2)
  {
    var n1, n2 := FileName(digest, url1), FileName(digest, url2);
    assert n1[..|n1| - 4] == digest(url1);
    assert n2[..|n2| - 4] == digest(url2);
  }

  /** The title as the record renders it. The parser yields no `<title>` element (None),
      a `<title>` whose `.string` is None (Some(None), rendered "None"), or its text. */
  function TitleText(title: Option<Option<string>>): string {
    match title
    case None => "Untitled"
    case Some(None) => "None"
    case Some(Some(t)) => t
  }

  /** The record of a page: a title line, a URL line, an empty line, then the text. */
  function RecordContent(title: string, url: string, text: string): string {
    "Title: " + title + "\nURL: " + url + "\n\n" + text
  }

  /** The index of the first `c` in `s`, if any. */
  function IndexOf(s: string, c: char): (r: Option<nat>)
    ensures r.Some? ==> r.value < |s| && s[r.value] == c && c !in s[..r.value]
    ensures r.None? ==> c !in s
  {
    if s == [] then None
    else if s[0] == c then Some(0)
    else match IndexOf(s[1..], c)
      case None => None
      case Some(k) => assert s[..k + 1] == [s[0]] + s[1..][..k]; Some(k + 1)
  }

  /** The title line starts with this tag. */
  const TitleTag: string := "Title: "
  /** The URL line starts with this tag. */
  const UrlTag: string := "URL: "

  /** `s` without the prefix `p`, when `s` starts with `p`. */
  function StripPrefix(p: string, s: string): (r: Option<string>)
    ensures r.Some? <==> |p| <= |s| && s[..|p|] == p
    ensures r.Some? ==> s == p + r.value
  {
    if |p| <= |s| && s[..|p|] == p then Some(s[|p|..]) else None
  }

  /** The line up to the first line break, and what follows that break. */
  function SplitLine(s: string): (r: Option<(string, string)>)
    ensures r.Some? ==> '\n' !in r.value.0 && s == r.value.0 + "\n" + r.value.1
  {
    match IndexOf(s, '\n')
    case None => None
    case Some(i) => assert s == s[..i] + "\n" + s[i + 1..]; Some((s[..i], s[i + 1..]))
  }

  /** The first line break of `a + "\n" + b` is the one after `a` when `a` has none. */
  lemma IndexOfFirst(a: string, c: char, b: string)
    requires c !in a
    ensures IndexOf(a + [c] + b, c) == Some(|a|)
  {
    assert (a + [c] + b)[|a|] == c;
  }

  lemma SplitLineFirst(line: string, rest: string)
    requires '\n' !in line
    ensures SplitLine(line + "\n" + rest) == Some((line, rest))
  {
    IndexOfFirst(line, '\n', rest);
    assert (line + "\n" + rest)[..|line|] == line;
    assert (line + "\n" + rest)[|line| + 1..] == rest;
  }

  /** Reads a record back: the title line, the URL line, one blank line, then the body. */
  function ParseRecord(content: string): Option<PageRecord> {
    match StripPrefix(TitleTag, content)
    case None => None
    case Some(afterTag) =>
      match SplitLine(afterTag)
      case None => None
      case Some((title, afterTitle)) =>
        match StripPrefix(UrlTag, afterTitle)
        case None => None
        case Some(afterUrlTag) =>
          match SplitLine(afterUrlTag)
          case None => None
          case Some((url, afterUrl)) =>
            match StripPrefix("\n", afterUrl)
            case None => None
            case Some(text) => Some(PageRecord(title, url, text))
  }

  lemma StripPrefixConcat(p: string, s: string)
    ensures StripPrefix(p, p + s) == Some(s)
  {
    assert (p + s)[..|p|] == p;
  }

  /** The record content as its tags, fields and line breaks, grouped from the right. */
  lemma RecordContentFields(title: string, url: string, text: string)
    ensures RecordContent(title, url, text) == TitleTag + (title + "\n" + (UrlTag + (url + "\n" + ("\n" + text))))
  {
  }

  /** A record whose title and URL hold no line break reads back as the fields it was written from. */
  lemma ParseRecordContent(title: string, url: string, text: string)
    requires '\n' !in title && '\n' !in url
    ensures ParseRecord(RecordContent(title, url, text)) == Some(PageRecord(title, url, text))
  {
    var afterUrl := "\n" + text;
    var afterUrlTag := url + "\n" + afterUrl;
    var afterTitle := UrlTag + afterUrlTag;
    var afterTag := title + "\n" + afterTitle;
    RecordContentFields(title, url, text);
    StripPrefixConcat(TitleTag, afterTag);
    SplitLineFirst(title, afterTitle);
    StripPrefixConcat(UrlTag, afterUrlTag);
    SplitLineFirst(url, afterUrl);
    StripPrefixConcat("\n", text);
  }

  /** Conversely, whatever reads back as a record is exactly that record's content, and its
      title and URL hold no line break. */
  lemma ParseRecordSound(content: string)
    requires ParseRecord(content).Some?
    ensures var r := ParseRecord(content).value;
            '\n' !in r.title && '\n' !in r.url && content == RecordContent(r.title, r.url, r.text)
  {
    var afterTag := StripPrefix(TitleTag, content).value;
    var (title, afterTitle) := SplitLine(afterTag).value;
    var afterUrlTag := StripPrefix(UrlTag, afterTitle).value;
    var (url, afterUrl) := SplitLine(afterUrlTag).value;
    var text := StripPrefix("\n", afterUrl).value;
    assert ParseRecord(content).value == PageRecord(title, url, text);
    assert content == TitleTag + afterTag;
    assert afterTag == title + "\n" + afterTitle;
    assert afterTitle == UrlTag + afterUrlTag;
    assert afterUrlTag == url + "\n" + afterUrl;
    assert afterUrl == "\n" + text;
    RecordContentFields(title, url, text);
  }
}
