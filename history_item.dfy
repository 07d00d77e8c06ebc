/**
 * One row of the drag manager's history panel (`HistoryItemWidget`): its label and the
 * three copy buttons, which put a Markdown link, an HTML tag or the plain path of a
 * processed file on the clipboard.  The text depends on the record's category name.
 */
module HistoryItem {
  import opened Wrappers
  import opened Text
  import opened Markup
  import Transfer

  type FileInfo = Transfer.ProcessedFile

  /** The label text: the file's name, an arrow, and the folder it went to. */
  function Label(info: FileInfo): string {
    info.name + " → " + info.folder
  }

  /** The label starts with the name and, after its last arrow, holds the folder. */
  lemma LabelParts(info: FileInfo)
    requires '→' !in info.folder
    ensures Label(info)[..|info.name|] == info.name
    ensures AfterLast(Label(info), '→') == " " + info.folder
  {
    assert Label(info) == (info.name + " ") + ['→'] + (" " + info.folder);
    AfterLastAppended(info.name + " ", '→', " " + info.folder);
  }

  /**
   * `copy_markdown`: an embedded image for the "images" category and a plain link for
   * every other category (the five non-image branches of the source build the same text).
   */
  function Markdown(info: FileInfo): string {
    MdLink(info.category == "images", info.name, info.path)
  }

  /** The Markdown reads back as a link to the record's path, with the image mark exactly for images. */
  lemma MarkdownDecodes(info: FileInfo)
    requires ']' !in info.name
    ensures ParseLink(Markdown(info)) == Some(Link(info.category == "images", info.name, info.path))
    ensures Markdown(info)[0] == '!' <==> info.category == "images"
  {
    LinkRoundTrip(info.category == "images", info.name, info.path);
    ImageMark(info.category == "images", info.name, info.path);
  }

  /** `copy_html`: an image, video or audio element, or a link opening in a new tab. */
  function Html(info: FileInfo): string {
    if info.category == "images" then ImageTag(info.path, info.name)
    else if info.category == "videos" then VideoTag(info.path)
    else if info.category == "audios" then AudioTag(info.path)
    else AnchorTag(info.path, info.name)
  }

  /** `<img src="path" alt="name" width="300">`. */
  function ImageTag(path: string, name: string): string {
    OpenTag("img", [Attribute("src", Some(path)), Attribute("alt", Some(name)), Attribute("width", Some("300"))])
  }

  /** `<video src="path" controls width="500"></video>`. */
  function VideoTag(path: string): string {
    OpenTag("video", [Attribute("src", Some(path)), Attribute("controls", None), Attribute("width", Some("500"))])
    + "</video>"
  }

  /** `<audio src="path" controls>Audio</audio>`. */
  function AudioTag(path: string): string {
    OpenTag("audio", [Attribute("src", Some(path)), Attribute("controls", None)]) + "Audio</audio>"
  }

  /** `<a href="path" target="_blank">name</a>`. */
  function AnchorTag(path: string, name: string): string {
    OpenTag("a", [Attribute("href", Some(path)), Attribute("target", Some("_blank"))]) + name + "</a>"
  }

  /** The element each category is shown with; "htmls", "documents" and unknown names share the link. */
  function ElementFor(category: string): string {
    match category
    case "images" => "img"
    case "videos" => "video"
    case "audios" => "audio"
    case _ => "a"
  }

  /** The image tag reads back as an `img` with the path, the name and width 300, in that order. */
  lemma ImageTagParts(path: string, name: string)
    requires '"' !in path && '"' !in name
    ensures ReadTag(ImageTag(path, name))
            == Some(Tag("img", [Attribute("src", Some(path)), Attribute("alt", Some(name)),
                                Attribute("width", Some("300"))], ""))
  {
    var attrs := [Attribute("src", Some(path)), Attribute("alt", Some(name)), Attribute("width", Some("300"))];
    WellFormedLists(attrs[0], attrs[1], attrs[2]);
    TagRoundTrip("img", attrs, "");
    assert ImageTag(path, name) == OpenTag("img", attrs) + "";
  }

  /** The video tag reads back as a `video` with the path, `controls` and width 500, and then its end tag. */
  lemma VideoTagParts(path: string)
    requires '"' !in path
    ensures ReadTag(VideoTag(path))
            == Some(Tag("video", [Attribute("src", Some(path)), Attribute("controls", None),
                                  Attribute("width", Some("500"))], "</video>"))
  {
    var attrs := [Attribute("src", Some(path)), Attribute("controls", None), Attribute("width", Some("500"))];
    WellFormedLists(attrs[0], attrs[1], attrs[2]);
    TagRoundTrip("video", attrs, "</video>");
  }

  /** The audio tag reads back as an `audio` with the path and `controls`, then the text "Audio". */
  lemma AudioTagParts(path: string)
    requires '"' !in path
    ensures ReadTag(AudioTag(path))
            == Some(Tag("audio", [Attribute("src", Some(path)), Attribute("controls", None)], "Audio</audio>"))
  {
    var attrs := [Attribute("src", Some(path)), Attribute("controls", None)];
    WellFormedLists(attrs[0], attrs[1], attrs[1]);
    TagRoundTrip("audio", attrs, "Audio</audio>");
  }

  /** The link reads back as an `a` to the path opening in a new tab, followed by the name and `</a>`. */
  lemma AnchorTagParts(path: string, name: string)
    requires '"' !in path
    ensures ReadTag(AnchorTag(path, name))
            == Some(Tag("a", [Attribute("href", Some(path)), Attribute("target", Some("_blank"))], name + "</a>"))
  {
    var attrs := [Attribute("href", Some(path)), Attribute("target", Some("_blank"))];
    WellFormedLists(attrs[0], attrs[1], attrs[1]);
    TagRoundTrip("a", attrs, name + "</a>");
    assert AnchorTag(path, name) == OpenTag("a", attrs) + (name + "</a>");
  }

  /** The ImageTagAsWritten is the source's f-string, one attribute per group. */
  lemma ImageTagAsWritten(path: string, name: string)
    ensures ImageTag(path, name)
            == "<img" + (" src=\"" + path + "\"") + (" alt=\"" + name + "\"") + " width=\"300\"" + ">"
  {
    OpenTag3Text("img", Attribute("src", Some(path)), Attribute("alt", Some(name)), Attribute("width", Some("300")),
                 "<img", " src=\"" + path + "\"", " alt=\"" + name + "\"", " width=\"300\"");
  }

  /** The VideoTagAsWritten is the source's f-string, one attribute per group. */
  lemma VideoTagAsWritten(path: string)
    ensures VideoTag(path)
            == "<video" + (" src=\"" + path + "\"") + " controls" + " width=\"500\"" + ">" + "</video>"
  {
    OpenTag3("video", Attribute("src", Some(path)), Attribute("controls", None), Attribute("width", Some("500")));
    assert "<" + "video" == "<video";
    assert AttrText(Attribute("src", Some(path))) == " src=\"" + path + "\"";
    assert AttrText(Attribute("controls", None)) == " controls";
    assert AttrText(Attribute("width", Some("500"))) == " width=\"500\"";
  }

  /** The AudioTagAsWritten is the source's f-string, one attribute per group. */
  lemma AudioTagAsWritten(path: string)
    ensures AudioTag(path)
            == "<audio" + (" src=\"" + path + "\"") + " controls" + ">" + "Audio</audio>"
  {
    OpenTag2("audio", Attribute("src", Some(path)), Attribute("controls", None));
    assert "<" + "audio" == "<audio";
    assert AttrText(Attribute("src", Some(path))) == " src=\"" + path + "\"";
    assert AttrText(Attribute("controls", None)) == " controls";
  }

  /** The AnchorTagAsWritten is the source's f-string, one attribute per group. */
  lemma AnchorTagAsWritten(path: string, name: string)
    ensures AnchorTag(path, name)
            == "<a" + (" href=\"" + path + "\"") + " target=\"_blank\"" + ">" + name + "</a>"
  {
    OpenTag2("a", Attribute("href", Some(path)), Attribute("target", Some("_blank")));
    assert "<" + "a" == "<a";
    assert AttrText(Attribute("href", Some(path))) == " href=\"" + path + "\"";
    assert AttrText(Attribute("target", Some("_blank"))) == " target=\"_blank\"";
  }

  /**
   * The tag reads back as the element of the record's category, with that category's
   * attributes in order: the path first, the name as `alt` of an image, the fixed widths,
   * `controls`, and the new-tab target of a link, whose text is the name.
   */
  lemma HtmlDecodes(info: FileInfo)
    requires '"' !in info.path
    requires info.category == "images" ==> '"' !in info.name
    ensures ReadTag(Html(info)).Some? && ReadTag(Html(info)).value.element == ElementFor(info.category)
    ensures info.category == "images" ==>
              ReadTag(Html(info)) == Some(Tag("img", [Attribute("src", Some(info.path)), Attribute("alt", Some(info.name)),
                                                      Attribute("width", Some("300"))], ""))
    ensures info.category == "videos" ==>
              ReadTag(Html(info)) == Some(Tag("video", [Attribute("src", Some(info.path)), Attribute("controls", None),
                                                        Attribute("width", Some("500"))], "</video>"))
    ensures info.category == "audios" ==>
              ReadTag(Html(info)) == Some(Tag("audio", [Attribute("src", Some(info.path)), Attribute("controls", None)],
                                              "Audio</audio>"))
    ensures ElementFor(info.category) == "a" ==>
              ReadTag(Html(info)) == Some(Tag("a", [Attribute("href", Some(info.path)), Attribute("target", Some("_blank"))],
                                              info.name + "</a>"))
  {
    if info.category == "images" {
      assert Html(info) == ImageTag(info.path, info.name);
      ImageTagParts(info.path, info.name);
    } else if info.category == "videos" {
      assert Html(info) == VideoTag(info.path);
      VideoTagParts(info.path);
    } else if info.category == "audios" {
      assert Html(info) == AudioTag(info.path);
      AudioTagParts(info.path);
    } else {
      assert Html(info) == AnchorTag(info.path, info.name);
      AnchorTagParts(info.path, info.name);
    }
  }

  /** For a record the engine made, the copied path ends with the name the label shows. */
  lemma CopiedPathEndsWithName(req: Transfer.Request, clock: nat -> Transfer.Instant, i: nat)
    requires i < |req.fileList|
    requires '/' !in Transfer.Record(Transfer.PlanAt(req, clock, i)).name
    ensures var info := Transfer.Record(Transfer.PlanAt(req, clock, i));
            BaseName(info.path) == info.name
  {
    var p := Transfer.PlanAt(req, clock, i);
    Transfer.Destination(req, clock, i, Transfer.CounterAt(req, i));
    BaseNameOfJoin(p.destDir, p.newName + p.ext);
  }

  /** `HistoryItemWidget`: a processed-file record, its label, and the three copy buttons. */
  class HistoryItemWidget {
    const fileInfo: FileInfo
    const fileLabel: string

    constructor (fileInfo: FileInfo)
      ensures this.fileInfo == fileInfo && fileLabel == Label(fileInfo)
    {
      this.fileInfo := fileInfo;
      this.fileLabel := fileInfo.name + " → " + fileInfo.folder;
    }

    method CopyMarkdown(clipboard: Clipboard)
      modifies clipboard
      ensures clipboard.text == Markdown(fileInfo)
    {
      var content := MdLink(fileInfo.category == "images", fileInfo.name, fileInfo.path);
      clipboard.SetText(content);
    }

    method CopyHtml(clipboard: Clipboard)
      modifies clipboard
      ensures clipboard.text == Html(fileInfo)
    {
      var content;
      if fileInfo.category == "images" {
        content := ImageTag(fileInfo.path, fileInfo.name);
      } else if fileInfo.category == "videos" {
        content := VideoTag(fileInfo.path);
      } else if fileInfo.category == "audios" {
        content := AudioTag(fileInfo.path);
      } else {
        content := AnchorTag(fileInfo.path, fileInfo.name);
      }
      clipboard.SetText(content);
    }

    /** The record's path goes on the clipboard unchanged. */
    method CopyPath(clipboard: Clipboard)
      modifies clipboard
      ensures clipboard.text == fileInfo.path
    {
      clipboard.SetText(fileInfo.path);
    }
  }
}
