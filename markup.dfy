/**
 * The Markdown links and HTML tags that both programs put on the clipboard, and the
 * small readers that take them apart again.  The readers are the partners of the
 * builders: every builder is proved to produce text they decode to what was put in.
 */
module Markup {
  import opened Wrappers
  import opened Text

  // ---------------------------------------------------------------- Markdown

  /** A Markdown link or, with `image`, an embedded image. */
  datatype Link = Link(image: bool, text: string, target: string)

  /** `[text](target)`, or `![text](target)` for an image. */
  function MdLink(image: bool, text: string, target: string): string {
    (if image then "!" else "") + "[" + text + "](" + target + ")"
  }

  /** Reads a whole string as one Markdown link; `None` when it is not one. */
  function ParseLink(s: string): (r: Option<Link>)
    ensures r.Some? ==> |s| >= 4 && s[|s| - 1] == ')'
  {
    if |s| > 0 && s[0] == '!' then ParseBracketed(true, s[1..]) else ParseBracketed(false, s)
  }

  /** `[text](target)`, the part after the optional '!'. */
  function ParseBracketed(image: bool, rest: string): (r: Option<Link>)
    ensures r.Some? ==> |rest| >= 4 && rest[|rest| - 1] == ')'
  {
    if |rest| < 2 || rest[0] != '[' then None else ParseBody(image, rest[1..])
  }

  /** `text](target)`: the text runs to the first ']', which must be followed by the parenthesised target. */
  function ParseBody(image: bool, body: string): (r: Option<Link>)
    ensures r.Some? ==> |body| >= 3 && body[|body| - 1] == ')'
  {
    var k := Find(body, ']');
    if k < 0 || k + 1 >= |body| - 1 || body[k + 1] != '(' || body[|body| - 1] != ')' then None
    else Some(Link(image, body[..k], body[k + 2..|body| - 1]))
  }

  /** A link starts with '!' exactly when it embeds an image. */
  lemma ImageMark(image: bool, text: string, target: string)
    ensures MdLink(image, text, target)[0] == '!' <==> image
  {
  }

  /** What follows the '[' of a link: the text ends at the first ']', the target sits in the parentheses. */
  lemma LinkBodyParts(text: string, target: string)
    requires ']' !in text
    ensures var body := text + "](" + target + ")";
            Find(body, ']') == |text| && |text| + 1 < |body| - 1
            && body[|text| + 1] == '(' && body[|body| - 1] == ')'
            && body[..|text|] == text && body[|text| + 2..|body| - 1] == target
  {
    var body := text + "](" + target + ")";
    assert body == text + [']'] + ("(" + target + ")");
    FindAppended(text, ']', "(" + target + ")");
    assert body[..|text|] == text;
    assert body[|text| + 2..|body| - 1] == target;
  }

  /** A link whose text has no ']' reads back as itself. */
  lemma LinkRoundTrip(image: bool, text: string, target: string)
    requires ']' !in text
    ensures ParseLink(MdLink(image, text, target)) == Some(Link(image, text, target))
  {
    var body := text + "](" + target + ")";
    var rest := "[" + body;
    LinkBodyParts(text, target);
    assert ParseBody(image, body) == Some(Link(image, text, target));
    assert rest[0] == '[' && rest[1..] == body;
    assert ParseBracketed(image, rest) == Some(Link(image, text, target));
    var s := MdLink(image, text, target);
    if image {
      assert s == "!" + rest;
      assert s[0] == '!' && s[1..] == rest;
    } else {
      assert s == rest;
    }
  }

  // -------------------------------------------------------------------- HTML

  /** One attribute of an opening tag: ` name="value"`, or a bare ` name` such as `controls`. */
  datatype Attribute = Attribute(name: string, value: Option<string>)

  /** An opening tag: its element, its attributes in order, and the text after its '>'. */
  datatype Tag = Tag(element: string, attrs: seq<Attribute>, after: string)

  /** ` name="value"`: one valued attribute, as the f-strings write it. */
  function Attr(name: string, value: string): string {
    " " + name + "=\"" + value + "\""
  }

  /** The text of one attribute. */
  function AttrText(a: Attribute): string {
    match a.value
    case Some(v) => Attr(a.name, v)
    case None => " " + a.name
  }

  /** The text of an attribute list, in order. */
  function AttrsText(attrs: seq<Attribute>): string {
    if |attrs| == 0 then "" else AttrText(attrs[0]) + AttrsText(attrs[1..])
  }

  /** An opening tag: '<', the element, its attributes, '>'. */
  function OpenTag(element: string, attrs: seq<Attribute>): string {
    "<" + element + AttrsText(attrs) + ">"
  }

  /** The characters that end an element or attribute name. */
  predicate IsStop(c: char) {
    c == ' ' || c == '>' || c == '='
  }

  /** A name the reader can take back: it holds none of the stop characters. */
  predicate PlainName(s: string) {
    ' ' !in s && '>' !in s && '=' !in s
  }

  /** An attribute the reader can take back: a plain name, and a value without '"'. */
  predicate Readable(a: Attribute) {
    PlainName(a.name) && (a.value.Some? ==> '"' !in a.value.value)
  }

  /** Attributes the reader can take back, every one of them. */
  predicate WellFormed(attrs: seq<Attribute>) {
    |attrs| == 0 || (Readable(attrs[0]) && WellFormed(attrs[1..]))
  }

  /** The length of the name at the front of `s`: it runs to the first stop character. */
  function NameLen(s: string): (n: nat)
    ensures n <= |s|
    ensures n < |s| ==> IsStop(s[n])
  {
    if |s| == 0 || IsStop(s[0]) then 0 else 1 + NameLen(s[1..])
  }

  /** A plain name followed by a stop character is read whole. */
  lemma {:induction false} NameLenAppended(x: string, t: string)
    requires PlainName(x) && |t| > 0 && IsStop(t[0])
    ensures NameLen(x + t) == |x|
  {
    if |x| > 0 {
      assert (x + t)[1..] == x[1..] + t;
      NameLenAppended(x[1..], t);
    }
  }

  /** `a` in front of what the rest of the tag reads as. */
  function Prepend(a: Attribute, r: Option<(seq<Attribute>, string)>): Option<(seq<Attribute>, string)> {
    match r
    case None => None
    case Some(p) => Some(([a] + p.0, p.1))
  }

  /**
   * Reads the attributes of an opening tag up to and including its '>': each starts with
   * a space; a valued one is `name="value"`, a bare one ends at the next space or '>'.
   * The text after the '>' comes back with them; `None` when `s` is not of that form.
   */
  function ReadAttrs(s: string): (r: Option<(seq<Attribute>, string)>)
    ensures r.Some? ==> |r.value.1| < |s|
    decreases |s|, 0
  {
    if |s| == 0 then None
    else if s[0] == '>' then Some(([], s[1..]))
    else if s[0] == ' ' then ReadAttr(s[1..])
    else None
  }

  /** One attribute after its space: a name, then `="value"` or the next space or '>'. */
  function ReadAttr(t: string): (r: Option<(seq<Attribute>, string)>)
    ensures r.Some? ==> |r.value.1| < |t|
    decreases |t|, 1
  {
    var k := NameLen(t);
    if k == |t| then None
    else if t[k] == '=' then ReadValue(t[..k], t[k + 1..])
    else Prepend(Attribute(t[..k], None), ReadAttrs(t[k..]))
  }

  /** The `"value"` of the attribute `name`, then the rest of the tag. */
  function ReadValue(name: string, w: string): (r: Option<(seq<Attribute>, string)>)
    ensures r.Some? ==> |r.value.1| < |w|
    decreases |w|, 1
  {
    if |w| == 0 || w[0] != '"' then None
    else
      var q := Find(w[1..], '"');
      if q < 0 then None
      else Prepend(Attribute(name, Some(w[1..][..q])), ReadAttrs(w[1..][q + 1..]))
  }

  /** Reads an opening tag at the front of `s`; `None` when `s` does not start with one. */
  function ReadTag(s: string): (r: Option<Tag>)
    ensures r.Some? ==> |s| >= 2 && s[0] == '<'
    ensures r.Some? ==> |r.value.after| < |s|
  {
    if |s| == 0 || s[0] != '<' then None
    else
      var t := s[1..];
      var k := NameLen(t);
      match ReadAttrs(t[k..])
      case None => None
      case Some(p) => Some(Tag(t[..k], p.0, p.1))
  }

  /** `rest` is what follows some '>' of `s`, up to the end of `s`. */
  predicate AfterClose(s: string, rest: string) {
    |rest| < |s| && s[|s| - |rest|..] == rest && s[|s| - |rest| - 1] == '>'
  }

  /** What follows a '>' of a suffix of `s` follows that '>' in `s` too. */
  lemma AfterCloseShift(s: string, j: nat, rest: string)
    requires j <= |s| && AfterClose(s[j..], rest)
    ensures AfterClose(s, rest)
  {
    assert s[j..][|s| - j - |rest|..] == s[|s| - |rest|..];
    assert s[j..][|s| - j - |rest| - 1] == s[|s| - |rest| - 1];
  }

  /** The text left after the attributes is the rest of the input after the tag's '>'. */
  lemma {:induction false} ReadAttrsRest(s: string)
    requires ReadAttrs(s).Some?
    ensures AfterClose(s, ReadAttrs(s).value.1)
    decreases |s|, 0
  {
    if s[0] == '>' {
      assert s[1..] == s[|s| - |s[1..]|..];
    } else {
      ReadAttrRest(s[1..]);
      AfterCloseShift(s, 1, ReadAttrs(s).value.1);
    }
  }

  /** The same for the attributes read after a space. */
  lemma {:induction false} ReadAttrRest(t: string)
    requires ReadAttr(t).Some?
    ensures AfterClose(t, ReadAttr(t).value.1)
    decreases |t|, 1
  {
    var k := NameLen(t);
    if t[k] == '=' {
      ReadValueRest(t[..k], t[k + 1..]);
      AfterCloseShift(t, k + 1, ReadAttr(t).value.1);
    } else {
      ReadAttrsRest(t[k..]);
      AfterCloseShift(t, k, ReadAttr(t).value.1);
    }
  }

  /** The same for the attributes read after a quoted value. */
  lemma {:induction false} ReadValueRest(name: string, w: string)
    requires ReadValue(name, w).Some?
    ensures AfterClose(w, ReadValue(name, w).value.1)
    decreases |w|, 1
  {
    var q := Find(w[1..], '"');
    assert w[1..][q + 1..] == w[q + 2..];
    ReadAttrsRest(w[q + 2..]);
    AfterCloseShift(w, q + 2, ReadValue(name, w).value.1);
  }

  /** A quoted value is read whole, and reading goes on right after its closing quote. */
  lemma ReadQuoted(name: string, v: string, rest: string)
    requires '"' !in v
    ensures ReadValue(name, "\"" + v + "\"" + rest) == Prepend(Attribute(name, Some(v)), ReadAttrs(rest))
  {
    var w := "\"" + v + "\"" + rest;
    assert w[1..] == v + ['"'] + rest;
    FindAppended(v, '"', rest);
    assert w[1..][..|v|] == v && w[1..][|v| + 1..] == rest;
  }

  /** A valued attribute is read off the front, and reading goes on right after its closing quote. */
  lemma ReadValued(name: string, v: string, rest: string)
    requires PlainName(name) && '"' !in v
    ensures ReadAttrs(Attr(name, v) + rest) == Prepend(Attribute(name, Some(v)), ReadAttrs(rest))
  {
    var s := Attr(name, v) + rest;
    var t := s[1..];
    assert t == name + ("=" + ("\"" + v + "\"" + rest));
    NameLenAppended(name, "=" + ("\"" + v + "\"" + rest));
    assert t[..|name|] == name && t[|name| + 1..] == "\"" + v + "\"" + rest;
    ReadQuoted(name, v, rest);
  }

  /** A bare attribute is read off the front, and reading goes on at the stop character after it. */
  lemma ReadBare(name: string, rest: string)
    requires PlainName(name) && |rest| > 0 && (rest[0] == ' ' || rest[0] == '>')
    ensures ReadAttrs(" " + name + rest) == Prepend(Attribute(name, None), ReadAttrs(rest))
  {
    var s := " " + name + rest;
    var t := s[1..];
    assert t == name + rest;
    NameLenAppended(name, rest);
    assert t[..|name|] == name && t[|name|..] == rest;
  }

  /** An attribute list followed by '>' starts with a space or with that '>'. */
  lemma AttrsTextStart(attrs: seq<Attribute>, after: string)
    ensures var s := AttrsText(attrs) + ">" + after; |s| > 0 && (s[0] == ' ' || s[0] == '>')
  {
    if |attrs| > 0 {
      assert AttrsText(attrs) == AttrText(attrs[0]) + AttrsText(attrs[1..]);
    }
  }

  /** The first attribute is read off the front of a list, and reading goes on with the others. */
  lemma ReadFirst(s: string, a: Attribute, rest: string, others: seq<Attribute>, after: string)
    requires s == AttrText(a) + rest && Readable(a)
    requires |rest| > 0 && (rest[0] == ' ' || rest[0] == '>')
    requires ReadAttrs(rest) == Some((others, after))
    ensures ReadAttrs(s) == Some(([a] + others, after))
  {
    match a.value
    case Some(v) =>
      ReadValued(a.name, v, rest);
    case None =>
      ReadBare(a.name, rest);
  }

  /** Reading a list takes its first attribute, then reads the others exactly as on their own. */
  lemma ReadCons(attrs: seq<Attribute>, after: string)
    requires |attrs| > 0 && Readable(attrs[0])
    requires ReadAttrs(AttrsText(attrs[1..]) + ">" + after) == Some((attrs[1..], after))
    ensures ReadAttrs(AttrsText(attrs) + ">" + after) == Some((attrs, after))
  {
    var rest := AttrsText(attrs[1..]) + ">" + after;
    AttrsTextStart(attrs[1..], after);
    ReadFirst(AttrsText(attrs) + ">" + after, attrs[0], rest, attrs[1..], after);
    assert [attrs[0]] + attrs[1..] == attrs;
  }

  /** A well-formed attribute list followed by '>' reads back as itself, with the rest untouched. */
  lemma {:induction false} AttrsRoundTrip(attrs: seq<Attribute>, after: string)
    requires WellFormed(attrs)
    ensures ReadAttrs(AttrsText(attrs) + ">" + after) == Some((attrs, after))
  {
    if |attrs| == 0 {
      assert AttrsText(attrs) + ">" + after == ">" + after;
    } else {
      AttrsRoundTrip(attrs[1..], after);
      ReadCons(attrs, after);
    }
  }

  /** The element name is read off the front of a tag, and the attributes after it. */
  lemma ReadElement(element: string, rest: string)
    requires PlainName(element) && |rest| > 0 && IsStop(rest[0])
    ensures ReadAttrs(rest).Some? ==>
              ReadTag("<" + element + rest) == Some(Tag(element, ReadAttrs(rest).value.0, ReadAttrs(rest).value.1))
  {
    var s := "<" + element + rest;
    assert s[1..] == element + rest;
    NameLenAppended(element, rest);
    assert s[1..][..|element|] == element && s[1..][|element|..] == rest;
  }

  /** A tag followed by more text is '<', its element, and the text from its first stop character on. */
  lemma OpenTagSplit(element: string, attrs: seq<Attribute>, after: string)
    ensures OpenTag(element, attrs) + after == "<" + element + (AttrsText(attrs) + ">" + after)
  {
  }

  /** An opening tag with a plain element name and well-formed attributes reads back as itself. */
  lemma TagRoundTrip(element: string, attrs: seq<Attribute>, after: string)
    requires PlainName(element) && WellFormed(attrs)
    ensures ReadTag(OpenTag(element, attrs) + after) == Some(Tag(element, attrs, after))
  {
    var rest := AttrsText(attrs) + ">" + after;
    OpenTagSplit(element, attrs, after);
    AttrsRoundTrip(attrs, after);
    AttrsTextStart(attrs, after);
    ReadElement(element, rest);
  }

  /** An opening tag with one attribute, written out. */
  lemma OpenTag1(element: string, a: Attribute)
    ensures OpenTag(element, [a]) == "<" + element + AttrText(a) + ">"
  {
    assert [a][1..] == [];
    assert AttrsText([a]) == AttrText(a);
  }

  /** An opening tag with two attributes, written out. */
  lemma OpenTag2(element: string, a: Attribute, b: Attribute)
    ensures OpenTag(element, [a, b]) == "<" + element + AttrText(a) + AttrText(b) + ">"
  {
    assert [a, b][1..] == [b] && [b][1..] == [];
    assert AttrsText([b]) == AttrText(b);
    assert AttrsText([a, b]) == AttrText(a) + AttrText(b);
  }

  /** An opening tag with three attributes, written out. */
  lemma OpenTag3(element: string, a: Attribute, b: Attribute, c: Attribute)
    ensures OpenTag(element, [a, b, c]) == "<" + element + AttrText(a) + AttrText(b) + AttrText(c) + ">"
  {
    assert [a, b, c][1..] == [b, c] && [b, c][1..] == [c] && [c][1..] == [];
    assert AttrsText([c]) == AttrText(c);
    assert AttrsText([b, c]) == AttrText(b) + AttrText(c);
    assert AttrsText([a, b, c]) == AttrText(a) + (AttrText(b) + AttrText(c));
  }

  /** An opening tag with three attributes, in terms of the texts of its parts. */
  lemma OpenTag3Text(element: string, a: Attribute, b: Attribute, c: Attribute,
                     open: string, ta: string, tb: string, tc: string)
    requires "<" + element == open
    requires AttrText(a) == ta && AttrText(b) == tb && AttrText(c) == tc
    ensures OpenTag(element, [a, b, c]) == open + ta + tb + tc + ">"
  {
    OpenTag3(element, a, b, c);
  }

  /** One, two or three readable attributes make a well-formed list. */
  lemma WellFormedLists(a: Attribute, b: Attribute, c: Attribute)
    ensures WellFormed([a]) <==> Readable(a)
    ensures WellFormed([a, b]) <==> Readable(a) && Readable(b)
    ensures WellFormed([a, b, c]) <==> Readable(a) && Readable(b) && Readable(c)
  {
    assert [a][1..] == [] && [a, b][1..] == [b] && [a, b, c][1..] == [b, c];
    assert [b, c][1..] == [c] && [c][1..] == [] && [b][1..] == [];
    assert WellFormed([c]) <==> Readable(c);
    assert WellFormed([b, c]) <==> Readable(b) && Readable(c);
  }

  // --------------------------------------------------------------- clipboard

  /** The system clipboard: the one place the copy buttons write to. */
  class Clipboard {
    var text: string

    constructor ()
      ensures text == ""
    {
      text := "";
    }

    /** `QClipboard.setText`. */
    method SetText(s: string)
      modifies this
      ensures text == s
    {
      text := s;
    }
  }
}
