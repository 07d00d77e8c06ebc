/**
 * The file viewer's copy actions (`FileOperations.copy_html_code`, `copy_md_link`) and
 * the thumbnail test of `display_file`.  Unlike the drag manager's history rows, these
 * decide by the lower-cased extension of the path, testing the lists in a fixed order.
 */
module FileOperations {
  import opened Wrappers
  import opened Text
  import opened Markup

  const AudioExts: seq<string> := [".mp3", ".wav", ".aac", ".flac"]
  const DocumentExts: seq<string> := [".txt", ".pdf", ".docx", ".doc", ".wps", ".xls", ".xlsx",
                                      ".csv", ".pptx", ".ppt", ".epub", ".mobi", ".azw3"]
  const HtmlExts: seq<string> := [".html", ".htm"]
  const ImageExts: seq<string> := [".jpg", ".jpeg", ".png", ".gif"]
  const VideoExts: seq<string> := [".mp4", ".avi", ".mkv"]

  /** The extension every test looks at. */
  function KeyExt(filePath: Path): string {
    Lower(Ext(filePath))
  }

  /** `<audio src="file_path" controls>`. */
  function AudioTag(filePath: Path): string {
    OpenTag("audio", [Attribute("src", Some(filePath)), Attribute("controls", None)])
  }

  /** `<video src="file_path" controls>`. */
  function VideoTag(filePath: Path): string {
    OpenTag("video", [Attribute("src", Some(filePath)), Attribute("controls", None)])
  }

  /** `<img src="file_path" alt="file_name">`. */
  function ImageTag(filePath: Path, fileName: string): string {
    OpenTag("img", [Attribute("src", Some(filePath)), Attribute("alt", Some(fileName))])
  }

  /** `<a href="file_path">file_name</a>`. */
  function AnchorTag(filePath: Path, fileName: string): string {
    OpenTag("a", [Attribute("href", Some(filePath))]) + fileName + "</a>"
  }

  /** `copy_html_code`: the tag for the first list, in source order, that holds the extension. */
  function HtmlCode(filePath: Path): string {
    var fileName := BaseName(filePath);
    var ext := KeyExt(filePath);
    if ext in AudioExts then AudioTag(filePath)
    else if ext in DocumentExts then AnchorTag(filePath, fileName)
    else if ext in HtmlExts then AnchorTag(filePath, fileName)
    else if ext in ImageExts then ImageTag(filePath, fileName)
    else if ext in VideoExts then VideoTag(filePath)
    else AnchorTag(filePath, fileName)
  }

  /** `copy_md_link`: the same order of tests; only the image branch embeds. */
  function MdLinkFor(filePath: Path): string {
    var fileName := BaseName(filePath);
    var ext := KeyExt(filePath);
    if ext in AudioExts then MdLink(false, fileName, filePath)
    else if ext in DocumentExts then MdLink(false, fileName, filePath)
    else if ext in HtmlExts then MdLink(false, fileName, filePath)
    else if ext in ImageExts then MdLink(true, fileName, filePath)
    else if ext in VideoExts then MdLink(false, fileName, filePath)
    else MdLink(false, fileName, filePath)
  }

  /** The thumbnail test of `display_file`. */
  predicate WantsThumbnail(filePath: Path) {
    KeyExt(filePath) in [".jpg", ".jpeg", ".png", ".gif"]
  }

  /** No image extension is in a list tested before the image list. */
  lemma ImageListsApart()
    ensures forall e :: e in ImageExts ==> e !in AudioExts && e !in DocumentExts && e !in HtmlExts
  {
  }

  /** The element `copy_html_code` chooses for an extension, by the order of the tests. */
  function ElementForExt(ext: string): string {
    if ext in AudioExts then "audio"
    else if ext in DocumentExts || ext in HtmlExts then "a"
    else if ext in ImageExts then "img"
    else if ext in VideoExts then "video"
    else "a"
  }

  /** The audio tag reads back as an `audio` with the path and `controls`, and nothing after it. */
  lemma AudioTagParts(filePath: Path)
    requires '"' !in filePath
    ensures ReadTag(AudioTag(filePath))
            == Some(Tag("audio", [Attribute("src", Some(filePath)), Attribute("controls", None)], ""))
  {
    var attrs := [Attribute("src", Some(filePath)), Attribute("controls", None)];
    WellFormedLists(attrs[0], attrs[1], attrs[1]);
    TagRoundTrip("audio", attrs, "");
    assert AudioTag(filePath) == OpenTag("audio", attrs) + "";
  }

  /** The video tag reads back as a `video` with the path and `controls`, and nothing after it. */
  lemma VideoTagParts(filePath: Path)
    requires '"' !in filePath
    ensures ReadTag(VideoTag(filePath))
            == Some(Tag("video", [Attribute("src", Some(filePath)), Attribute("controls", None)], ""))
  {
    var attrs := [Attribute("src", Some(filePath)), Attribute("controls", None)];
    WellFormedLists(attrs[0], attrs[1], attrs[1]);
    TagRoundTrip("video", attrs, "");
    assert VideoTag(filePath) == OpenTag("video", attrs) + "";
  }

  /** The image tag reads back as an `img` with the path and then the name, and nothing after it. */
  lemma ImageTagParts(filePath: Path, fileName: string)
    requires '"' !in filePath && '"' !in fileName
    ensures ReadTag(ImageTag(filePath, fileName))
            == Some(Tag("img", [Attribute("src", Some(filePath)), Attribute("alt", Some(fileName))], ""))
  {
    var attrs := [Attribute("src", Some(filePath)), Attribute("alt", Some(fileName))];
    WellFormedLists(attrs[0], attrs[1], attrs[1]);
    TagRoundTrip("img", attrs, "");
    assert ImageTag(filePath, fileName) == OpenTag("img", attrs) + "";
  }

  /** The link reads back as an `a` to the path, with no other attribute, followed by the name and `</a>`. */
  lemma AnchorTagParts(filePath: Path, fileName: string)
    requires '"' !in filePath
    ensures ReadTag(AnchorTag(filePath, fileName))
            == Some(Tag("a", [Attribute("href", Some(filePath))], fileName + "</a>"))
  {
    var attrs := [Attribute("href", Some(filePath))];
    WellFormedLists(attrs[0], attrs[0], attrs[0]);
    TagRoundTrip("a", attrs, fileName + "</a>");
    assert AnchorTag(filePath, fileName) == OpenTag("a", attrs) + (fileName + "</a>");
  }

  /** The AudioTagAsWritten is the source's f-string, one attribute per group. */
  lemma AudioTagAsWritten(filePath: Path)
    ensures AudioTag(filePath)
            == "<audio" + (" src=\"" + filePath + "\"") + " controls" + ">"
  {
    OpenTag2("audio", Attribute("src", Some(filePath)), Attribute("controls", None));
    assert "<" + "audio" == "<audio";
    assert AttrText(Attribute("src", Some(filePath))) == " src=\"" + filePath + "\"";
    assert AttrText(Attribute("controls", None)) == " controls";
  }

  /** The VideoTagAsWritten is the source's f-string, one attribute per group. */
  lemma VideoTagAsWritten(filePath: Path)
    ensures VideoTag(filePath)
            == "<video" + (" src=\"" + filePath + "\"") + " controls" + ">"
  {
    OpenTag2("video", Attribute("src", Some(filePath)), Attribute("controls", None));
    assert "<" + "video" == "<video";
    assert AttrText(Attribute("src", Some(filePath))) == " src=\"" + filePath + "\"";
    assert AttrText(Attribute("controls", None)) == " controls";
  }

  /** The ImageTagAsWritten is the source's f-string, one attribute per group. */
  lemma ImageTagAsWritten(filePath: Path, fileName: string)
    ensures ImageTag(filePath, fileName)
            == "<img" + (" src=\"" + filePath + "\"") + (" alt=\"" + fileName + "\"") + ">"
  {
    OpenTag2("img", Attribute("src", Some(filePath)), Attribute("alt", Some(fileName)));
    assert "<" + "img" == "<img";
    assert AttrText(Attribute("src", Some(filePath))) == " src=\"" + filePath + "\"";
    assert AttrText(Attribute("alt", Some(fileName))) == " alt=\"" + fileName + "\"";
  }

  /** The AnchorTagAsWritten is the source's f-string, one attribute per group. */
  lemma AnchorTagAsWritten(filePath: Path, fileName: string)
    ensures AnchorTag(filePath, fileName)
            == "<a" + (" href=\"" + filePath + "\"") + ">" + fileName + "</a>"
  {
    OpenTag1("a", Attribute("href", Some(filePath)));
    assert "<" + "a" == "<a";
    assert AttrText(Attribute("href", Some(filePath))) == " href=\"" + filePath + "\"";
  }

  /**
   * The HTML code reads back as the element the ordered tests pick, with that element's
   * attributes in order: the path first, `controls` for audio and video, the base name as
   * `alt` of an image, and as the text of a link.
   */
  lemma HtmlCodeDecodes(filePath: Path)
    requires '"' !in filePath
    ensures ReadTag(HtmlCode(filePath)).Some?
    ensures ReadTag(HtmlCode(filePath)).value.element == ElementForExt(KeyExt(filePath))
    ensures ElementForExt(KeyExt(filePath)) == "audio" ==>
              ReadTag(HtmlCode(filePath)) == Some(Tag("audio", [Attribute("src", Some(filePath)), Attribute("controls", None)], ""))
    ensures ElementForExt(KeyExt(filePath)) == "video" ==>
              ReadTag(HtmlCode(filePath)) == Some(Tag("video", [Attribute("src", Some(filePath)), Attribute("controls", None)], ""))
    ensures ElementForExt(KeyExt(filePath)) == "img" ==>
              ReadTag(HtmlCode(filePath))
              == Some(Tag("img", [Attribute("src", Some(filePath)), Attribute("alt", Some(BaseName(filePath)))], ""))
    ensures ElementForExt(KeyExt(filePath)) == "a" ==>
              ReadTag(HtmlCode(filePath)) == Some(Tag("a", [Attribute("href", Some(filePath))], BaseName(filePath) + "</a>"))
  {
    var ext := KeyExt(filePath);
    var fileName := BaseName(filePath);
    BaseNameWithout(filePath, '"');
    if ext in AudioExts {
      assert HtmlCode(filePath) == AudioTag(filePath);
      AudioTagParts(filePath);
    } else if ext in DocumentExts || ext in HtmlExts {
      assert HtmlCode(filePath) == AnchorTag(filePath, fileName);
      AnchorTagParts(filePath, fileName);
    } else if ext in ImageExts {
      assert HtmlCode(filePath) == ImageTag(filePath, fileName);
      ImageTagParts(filePath, fileName);
    } else if ext in VideoExts {
      assert HtmlCode(filePath) == VideoTag(filePath);
      VideoTagParts(filePath);
    } else {
      assert HtmlCode(filePath) == AnchorTag(filePath, fileName);
      AnchorTagParts(filePath, fileName);
    }
  }

  /** The Markdown link reads back to the base name and the path, embedded exactly for image extensions. */
  lemma MdLinkDecodes(filePath: Path)
    requires ']' !in BaseName(filePath)
    ensures ParseLink(MdLinkFor(filePath)) == Some(Link(KeyExt(filePath) in ImageExts, BaseName(filePath), filePath))
    ensures MdLinkFor(filePath)[0] == '!' <==> KeyExt(filePath) in ImageExts
  {
    ImageListsApart();
    LinkRoundTrip(KeyExt(filePath) in ImageExts, BaseName(filePath), filePath);
    ImageMark(KeyExt(filePath) in ImageExts, BaseName(filePath), filePath);
  }

  /** The thumbnail is tried for exactly the files whose Markdown link embeds them. */
  lemma ThumbnailIffImage(filePath: Path)
    ensures WantsThumbnail(filePath) <==> KeyExt(filePath) in ImageExts
    ensures WantsThumbnail(filePath) <==> MdLinkFor(filePath)[0] == '!'
  {
    ImageListsApart();
    ImageMark(KeyExt(filePath) in ImageExts, BaseName(filePath), filePath);
  }

  /** Two paths whose extensions differ only in letter case get the same kind of tag and link. */
  lemma CaseIgnored(p: Path, q: Path)
    requires Lower(Ext(p)) == Lower(Ext(q))
    requires '"' !in p && '"' !in q
    ensures ReadTag(HtmlCode(p)).Some? && ReadTag(HtmlCode(q)).Some?
    ensures ReadTag(HtmlCode(p)).value.element == ReadTag(HtmlCode(q)).value.element
    ensures MdLinkFor(p)[0] == '!' <==> MdLinkFor(q)[0] == '!'
    ensures WantsThumbnail(p) == WantsThumbnail(q)
  {
    HtmlCodeDecodes(p);
    HtmlCodeDecodes(q);
    ThumbnailIffImage(p);
    ThumbnailIffImage(q);
  }

  /** Upper-case extensions are recognised: ".PNG" tests as ".png". */
  lemma UpperCaseExtension()
    ensures KeyExt("/pics/A.PNG") == ".png"
    ensures WantsThumbnail("/pics/A.PNG")
  {
    var name := "A.PNG";
    assert BaseName("/pics/A.PNG") == name by {
      BaseNameAfterSlash("/pics/", name);
      assert "/pics/" + name == "/pics/A.PNG";
    }
    RFindLast(name, '.');
    assert name[1] == '.' && name[0] != '.' && name[2] != '.' && name[3] != '.' && name[4] != '.';
    assert RFind(name, '.') == 1;
    assert !AllDots(name[..1]);
    assert NameExt(name) == ".PNG";
    LowerAt(".PNG", 0);
    LowerAt(".PNG", 1);
    LowerAt(".PNG", 2);
    LowerAt(".PNG", 3);
    assert Lower(".PNG") == ".png";
  }
}
