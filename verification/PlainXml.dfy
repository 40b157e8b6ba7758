/**
 A printer and a reader that meet the law asked of Qt's in Profiles.dfy, so that
 nothing there holds for want of one. It prints the five values of each element,
 each closed by a semicolon.
 */
module PlainXml {
  import opened Text
  import opened Profiles

  const SEMI: byte := ';'

  function RenderElement(e: Element): Bytes
    requires e.attributes.Keys == FIVE
  {
    e.attributes[ProfileName] + [SEMI] + (e.attributes[ProfileIPAddress] + [SEMI]
      + (e.attributes[ProfilePassword] + [SEMI] + (e.attributes[ProfileTCPPort] + [SEMI]
           + (e.attributes[ProfileIsDefault] + [SEMI]))))
  }

  function RenderAll(es: seq<Element>): Bytes
    requires forall i :: 0 <= i < |es| ==> PlainElement(es[i])
  {
    if es == [] then []
    else
      assert PlainElement(es[0]);
      RenderElement(es[0]) + RenderAll(es[1..])
  }

  function Render(d: Document): Bytes {
    if Plain(d) then ['<'] + RenderAll(d.children) else []
  }

  lemma ValueIsNoLonger(v: Bytes, w: Bytes, x: Bytes, y: Bytes)
    requires IsPlainText(w) && v + [SEMI] + x == w + [SEMI] + y
    ensures |w| <= |v|
  {
    assert (v + [SEMI] + x)[|v|] == SEMI;
    assert forall i :: 0 <= i < |w| ==> (w + [SEMI] + y)[i] == w[i];
  }

  lemma ValueIsRead(v: Bytes, w: Bytes, x: Bytes, y: Bytes)
    requires IsPlainText(v) && IsPlainText(w) && v + [SEMI] + x == w + [SEMI] + y
    ensures v == w && x == y
  {
    ValueIsNoLonger(v, w, x, y);
    ValueIsNoLonger(w, v, y, x);
    var s := v + [SEMI] + x;
    assert s[..|v|] == v && s[..|w|] == w;
    assert s[|v| + 1..] == x && s[|w| + 1..] == y;
  }

  lemma ElementIsRead(e: Element, f: Element, x: Bytes, y: Bytes)
    requires PlainElement(e) && PlainElement(f) && RenderElement(e) + x == RenderElement(f) + y
    ensures e == f && x == y
  {
    var a, b := e.attributes, f.attributes;
    var a5, b5 := a[ProfileIsDefault] + [SEMI] + x, b[ProfileIsDefault] + [SEMI] + y;
    var a4, b4 := a[ProfileTCPPort] + [SEMI] + a5, b[ProfileTCPPort] + [SEMI] + b5;
    var a3, b3 := a[ProfilePassword] + [SEMI] + a4, b[ProfilePassword] + [SEMI] + b4;
    var a2, b2 := a[ProfileIPAddress] + [SEMI] + a3, b[ProfileIPAddress] + [SEMI] + b3;
    assert RenderElement(e) + x == a[ProfileName] + [SEMI] + a2;
    assert RenderElement(f) + y == b[ProfileName] + [SEMI] + b2;
    ValueIsRead(a[ProfileName], b[ProfileName], a2, b2);
    ValueIsRead(a[ProfileIPAddress], b[ProfileIPAddress], a3, b3);
    ValueIsRead(a[ProfilePassword], b[ProfilePassword], a4, b4);
    ValueIsRead(a[ProfileTCPPort], b[ProfileTCPPort], a5, b5);
    ValueIsRead(a[ProfileIsDefault], b[ProfileIsDefault], x, y);
    assert a == b;
  }

  lemma {:induction false} AllAreRead(es: seq<Element>, fs: seq<Element>)
    requires forall i :: 0 <= i < |es| ==> PlainElement(es[i])
    requires forall i :: 0 <= i < |fs| ==> PlainElement(fs[i])
    requires RenderAll(es) == RenderAll(fs)
    ensures es == fs
    decreases |es|
  {
    if es != [] && fs != [] {
      ElementIsRead(es[0], fs[0], RenderAll(es[1..]), RenderAll(fs[1..]));
      AllAreRead(es[1..], fs[1..]);
      assert es == [es[0]] + es[1..] && fs == [fs[0]] + fs[1..];
    }
  }

  /** The start elements of a document, with white space in between. */
  function Spaced(es: seq<Element>): seq<XmlToken> {
    if es == [] then [OtherToken] else [OtherToken, StartElement(es[0])] + Spaced(es[1..])
  }

  lemma {:induction false} SpacedElements(es: seq<Element>)
    ensures Elements(Spaced(es)) == es
  {
    if es != [] {
      SpacedElements(es[1..]);
      assert Spaced(es)[1..] == [StartElement(es[0])] + Spaced(es[1..]);
      assert ([StartElement(es[0])] + Spaced(es[1..]))[1..] == Spaced(es[1..]);
    }
  }

  ghost predicate Prints(s: Bytes, d: Document) { Plain(d) && Render(d) == s }

  ghost predicate Printed(s: Bytes) { exists d: Document :: Prints(s, d) }

  ghost function Source(s: Bytes): (d: Document)
    requires Printed(s)
    ensures Prints(s, d)
  {
    var d: Document :| Prints(s, d);
    d
  }

  /** Read what was printed; anything else is an error. */
  ghost function Scan(s: Bytes): Reading {
    if Printed(s) then Reading(Spaced(ElementsIn(Source(s))), false) else Reading([OtherToken], true)
  }

  lemma ScanUndoesRender(d: Document)
    requires Plain(d)
    ensures Render(d) != [] && !Scan(Render(d)).hasError
    ensures Elements(Scan(Render(d)).tokens) == ElementsIn(d)
  {
    assert Prints(Render(d), d);
    var e := Source(Render(d));
    assert Render(d)[1..] == RenderAll(d.children) && Render(e)[1..] == RenderAll(e.children);
    AllAreRead(d.children, e.children);
    SpacedElements(ElementsIn(d));
  }

  lemma NothingPrintsEmpty()
    ensures Scan([]).hasError && Elements(Scan([]).tokens) == []
  {
    assert !Printed([]);
    assert [OtherToken][1..] == [];
  }

  /** The law can be met. */
  lemma LawfulXmlExists()
    ensures exists xml: Xml :: LawfulXml(xml)
  {
    ghost var xml := Xml(Render, Scan);
    forall d: Document | Plain(d)
      ensures && xml.render(d) != [] && !xml.scan(xml.render(d)).hasError
              && Elements(xml.scan(xml.render(d)).tokens) == ElementsIn(d)
    {
      ScanUndoesRender(d);
    }
    NothingPrintsEmpty();
    assert LawfulXml(xml);
  }
}
