/**
 The profile store: `SaveProfiles` builds a document whose text fields are
 encrypted one by one and encrypts the printed document as a whole; `GetProfiles`
 reads it back through a token stream into fresh objects.
 */
module Profiles {
  import opened Text
  import opened Sealing
  import opened Decimal

  datatype ProfileData = ProfileData(name: Bytes, address: Bytes, password: Bytes, port: int32, isDefault: bool)

  // ---- documents and token streams ----

  datatype Tag = ProfilesTag | ProfileTag | OtherTag(name: Bytes)

  datatype Attribute =
    | ProfileName | ProfileIPAddress | ProfilePassword | ProfileTCPPort | ProfileIsDefault
    | OtherAttribute(name: Bytes)

  datatype Element = Element(tag: Tag, attributes: map<Attribute, Bytes>)

  /** A root element over a list of childless elements. */
  datatype Document = Document(root: Tag, children: seq<Element>)

  datatype XmlToken = StartElement(element: Element) | OtherToken

  datatype Reading = Reading(tokens: seq<XmlToken>, hasError: bool)

  /** The elements that start in a token stream, in order. */
  function Elements(ts: seq<XmlToken>): seq<Element> {
    if ts == [] then []
    else (if ts[0].StartElement? then [ts[0].element] else []) + Elements(ts[1..])
  }

  /** The elements of a document: its root, then the children. */
  function ElementsIn(d: Document): seq<Element> { [Element(d.root, map[])] + d.children }

  /** Qt's printer and reader. */
  datatype Xml = Xml(render: Document -> Bytes, scan: Bytes -> Reading)

  predicate IsPlain(c: byte) { IsDigit(c) || c == '-' || 'A' <= c <= 'F' }

  predicate IsPlainText(text: Bytes) { forall i :: 0 <= i < |text| ==> IsPlain(text[i]) }

  const FIVE := {ProfileName, ProfileIPAddress, ProfilePassword, ProfileTCPPort, ProfileIsDefault}

  /** A profile element with its five attributes, all of hex digits, decimal digits and the minus sign. */
  predicate PlainElement(e: Element) {
    e.tag == ProfileTag && e.attributes.Keys == FIVE && forall a :: a in FIVE ==> IsPlainText(e.attributes[a])
  }

  /** The documents the program writes are of this kind. */
  predicate Plain(d: Document) {
    d.root == ProfilesTag && forall i :: 0 <= i < |d.children| ==> PlainElement(d.children[i])
  }

  /**
   All that is needed of them: a plain document prints to some text, which reads back
   element by element with any other tokens in between, white space for one; and an
   empty text is an error.
   */
  ghost predicate LawfulXml(xml: Xml) {
    && (forall d: Document {:trigger xml.scan(xml.render(d))} :: Plain(d) ==>
          && xml.render(d) != []
          && !xml.scan(xml.render(d)).hasError
          && Elements(xml.scan(xml.render(d)).tokens) == ElementsIn(d))
    && xml.scan([]).hasError && Elements(xml.scan([]).tokens) == []
  }

  // ---- what is written ----

  function FlagText(b: bool): Bytes { if b then "1" else "0" }

  function ElementOf(k: Aead, p: ProfileData): Element {
    Element(ProfileTag, map[
      ProfileName := Encrypt(k, p.name),
      ProfileIPAddress := Encrypt(k, p.address),
      ProfilePassword := Encrypt(k, p.password),
      ProfileTCPPort := Print(p.port),
      ProfileIsDefault := FlagText(p.isDefault)])
  }

  function ElementsOf(k: Aead, ps: seq<ProfileData>): (r: seq<Element>)
    ensures |r| == |ps| && forall i :: 0 <= i < |ps| ==> r[i] == ElementOf(k, ps[i])
  {
    seq(|ps|, i requires 0 <= i < |ps| => ElementOf(k, ps[i]))
  }

  function DocumentOf(k: Aead, ps: seq<ProfileData>): Document { Document(ProfilesTag, ElementsOf(k, ps)) }

  // ---- what is read ----

  /** A profile under construction: `new Profile()` leaves its port and its flag unset. */
  datatype Draft = Draft(name: Bytes, address: Bytes, password: Bytes, port: Option<int32>, isDefault: Option<bool>)

  /** The objects made so far, which of them have been appended, and whether every decryption verified. */
  datatype Parsed = Parsed(drafts: seq<Draft>, listed: seq<nat>, ok: bool)

  /** One attribute, if present, decrypted. */
  function Field(k: Aead, e: Element, a: Attribute): Opened {
    if a in e.attributes then Decrypt(k, e.attributes[a]) else Opened(true, [])
  }

  function Drafted(k: Aead, e: Element, d: Draft): Draft {
    Draft(
      d.name,
      if ProfileIPAddress in e.attributes then Field(k, e, ProfileIPAddress).text else d.address,
      if ProfilePassword in e.attributes then Field(k, e, ProfilePassword).text else d.password,
      if ProfileTCPPort in e.attributes then Some(ToInt(e.attributes[ProfileTCPPort])) else d.port,
      if ProfileIsDefault in e.attributes then Some(ToInt(e.attributes[ProfileIsDefault]) != 0) else d.isDefault)
  }

  /** A name starts a new object. */
  function Started(k: Aead, p: Parsed, e: Element): Parsed {
    if ProfileName in e.attributes then
      var field := Field(k, e, ProfileName);
      p.(drafts := p.drafts + [Draft(field.text, [], [], None, None)], ok := p.ok && field.ok)
    else p
  }

  /** The other attributes go to the latest object, and the flag appends it to the list. */
  function Finished(k: Aead, p: Parsed, e: Element): Parsed {
    var n := |p.drafts|;
    if n == 0 then p
    else Parsed(
      p.drafts[n - 1 := Drafted(k, e, p.drafts[n - 1])],
      p.listed + (if ProfileIsDefault in e.attributes then [n - 1] else []),
      p.ok && Field(k, e, ProfileIPAddress).ok && Field(k, e, ProfilePassword).ok)
  }

  /** One profile element. */
  function ReadElement(k: Aead, p: Parsed, e: Element): Parsed { Finished(k, Started(k, p, e), e) }

  function ReadToken(k: Aead, p: Parsed, t: XmlToken): Parsed {
    if t.StartElement? && t.element.tag == ProfileTag then ReadElement(k, p, t.element) else p
  }

  /** The inner loop. */
  function ReadAll(k: Aead, p: Parsed, ts: seq<XmlToken>): Parsed
    decreases |ts|
  {
    if ts == [] then p else ReadAll(k, ReadToken(k, p, ts[0]), ts[1..])
  }

  /** The outer loop: it hands everything after the first start element to the inner one. */
  function Parse(k: Aead, ts: seq<XmlToken>): Parsed
    decreases |ts|
  {
    if ts == [] then Parsed([], [], true)
    else if ts[0].StartElement? then ReadAll(k, Parsed([], [], true), ts[1..])
    else Parse(k, ts[1..])
  }

  /**
   What one profile element does, whatever it lacks: a name makes one new object, and
   only a name does; a default flag lists the latest object, if there is one, and only
   a flag does; every other attribute goes to the latest object, which keeps what the
   element lacks. Earlier objects are not touched.
   */
  lemma ElementEffects(k: Aead, p: Parsed, e: Element)
    ensures var q := ReadElement(k, p, e); var n := |q.drafts|;
            && n == |p.drafts| + (if ProfileName in e.attributes then 1 else 0)
            && (forall i :: 0 <= i < n - 1 && i < |p.drafts| ==> q.drafts[i] == p.drafts[i])
            && q.listed == p.listed + (if ProfileIsDefault in e.attributes && n > 0 then [n - 1] else [])
    ensures ProfileName in e.attributes ==>
              var d := ReadElement(k, p, e).drafts[|p.drafts|];
              && d.name == Decrypt(k, e.attributes[ProfileName]).text
              && (ProfileIPAddress !in e.attributes ==> d.address == [])
              && (ProfilePassword !in e.attributes ==> d.password == [])
              && (ProfileTCPPort !in e.attributes ==> d.port == None)
              && (ProfileIsDefault !in e.attributes ==> d.isDefault == None)
  {
  }

  lemma LatestIsFilled(k: Aead, p: Parsed, e: Element)
    requires |ReadElement(k, p, e).drafts| > 0
    ensures var d := ReadElement(k, p, e).drafts[|ReadElement(k, p, e).drafts| - 1]; var a := e.attributes;
            && (ProfileIPAddress in a ==> d.address == Decrypt(k, a[ProfileIPAddress]).text)
            && (ProfilePassword in a ==> d.password == Decrypt(k, a[ProfilePassword]).text)
            && (ProfileTCPPort in a ==> d.port == Some(ToInt(a[ProfileTCPPort])))
            && (ProfileIsDefault in a ==> d.isDefault == Some(ToInt(a[ProfileIsDefault]) != 0))
            && (ProfileName !in a ==>
                  var was := p.drafts[|p.drafts| - 1];
                  && d.name == was.name
                  && (ProfileIPAddress !in a ==> d.address == was.address)
                  && (ProfilePassword !in a ==> d.password == was.password)
                  && (ProfileTCPPort !in a ==> d.port == was.port)
                  && (ProfileIsDefault !in a ==> d.isDefault == was.isDefault))
  {
  }

  /** Elements of other tags, and tokens of other kinds, do nothing. */
  lemma OthersDoNothing(k: Aead, p: Parsed, t: XmlToken)
    requires t.StartElement? ==> t.element.tag != ProfileTag
    ensures ReadToken(k, p, t) == p
  {
  }

  // ---- the round trip ----

  function DraftOf(p: ProfileData): Draft {
    Draft(p.name, p.address, p.password, Some(p.port), Some(p.isDefault))
  }

  function DraftsOf(ps: seq<ProfileData>): (r: seq<Draft>)
    ensures |r| == |ps| && forall i :: 0 <= i < |ps| ==> r[i] == DraftOf(ps[i])
  {
    seq(|ps|, i requires 0 <= i < |ps| => DraftOf(ps[i]))
  }

  function Upto(n: nat): (r: seq<nat>)
    ensures |r| == n && forall i :: 0 <= i < n ==> r[i] == i
  {
    seq(n, i => i)
  }

  lemma FlagSurvives(b: bool)
    ensures (ToInt(FlagText(b)) != 0) == b
  {
    assert ReadNat("1") == Some(1) && ReadNat("0") == Some(0);
  }

  lemma TextFieldsSurvive(k: Aead, q: ProfileData)
    ensures Field(k, ElementOf(k, q), ProfileName) == Opened(true, q.name)
    ensures Field(k, ElementOf(k, q), ProfileIPAddress) == Opened(true, q.address)
    ensures Field(k, ElementOf(k, q), ProfilePassword) == Opened(true, q.password)
  {
    DecryptEncrypt(k, q.name);
    DecryptEncrypt(k, q.address);
    DecryptEncrypt(k, q.password);
  }

  lemma DraftSurvives(k: Aead, q: ProfileData)
    ensures Drafted(k, ElementOf(k, q), Draft(q.name, [], [], None, None)) == DraftOf(q)
  {
    TextFieldsSurvive(k, q);
    ToIntOfPrint(q.port);
    FlagSurvives(q.isDefault);
  }

  /** One element read back adds one complete object and lists it. */
  lemma ElementRoundTrip(k: Aead, p: Parsed, q: ProfileData)
    ensures ReadElement(k, p, ElementOf(k, q))
         == Parsed(p.drafts + [DraftOf(q)], p.listed + [|p.drafts|], p.ok)
  {
    TextFieldsSurvive(k, q);
    DraftSurvives(k, q);
    FinishedComplete(k, p, ElementOf(k, q), Draft(q.name, [], [], None, None), DraftOf(q));
  }

  lemma FinishedComplete(k: Aead, p: Parsed, e: Element, d: Draft, full: Draft)
    requires ProfileName in e.attributes && ProfileIsDefault in e.attributes
    requires Field(k, e, ProfileName) == Opened(true, d.name) && d == Draft(d.name, [], [], None, None)
    requires Field(k, e, ProfileIPAddress).ok && Field(k, e, ProfilePassword).ok
    requires Drafted(k, e, d) == full
    ensures ReadElement(k, p, e) == Parsed(p.drafts + [full], p.listed + [|p.drafts|], p.ok)
  {
    assert (p.drafts + [d])[|p.drafts| := full] == p.drafts + [full];
  }

  /** The inner loop, told by the elements alone. */
  function ReadElements(k: Aead, p: Parsed, es: seq<Element>): Parsed
    decreases |es|
  {
    if es == [] then p else ReadElements(k, ReadToken(k, p, StartElement(es[0])), es[1..])
  }

  lemma {:induction false} ReadElementsAppend(k: Aead, p: Parsed, a: seq<Element>, b: seq<Element>)
    ensures ReadElements(k, p, a + b) == ReadElements(k, ReadElements(k, p, a), b)
    decreases |a|
  {
    if a == [] {
      assert a + b == b;
    } else {
      assert (a + b)[1..] == a[1..] + b;
      ReadElementsAppend(k, ReadToken(k, p, StartElement(a[0])), a[1..], b);
    }
  }

  lemma FirstElement(ts: seq<XmlToken>)
    requires ts != []
    ensures ts[0].StartElement? ==>
              Elements(ts) != [] && Elements(ts)[0] == ts[0].element && Elements(ts)[1..] == Elements(ts[1..])
    ensures !ts[0].StartElement? ==> Elements(ts) == Elements(ts[1..])
  {
  }

  lemma {:induction false} ReadAllSeesElements(k: Aead, p: Parsed, ts: seq<XmlToken>)
    ensures ReadAll(k, p, ts) == ReadElements(k, p, Elements(ts))
    decreases |ts|
  {
    if ts != [] {
      ReadAllSeesElements(k, ReadToken(k, p, ts[0]), ts[1..]);
      FirstElement(ts);
    }
  }

  /** The two loops depend on the elements alone: the first is the root, the others are read in order. */
  lemma {:induction false} ParseSeesElements(k: Aead, ts: seq<XmlToken>)
    ensures Parse(k, ts) == if Elements(ts) == [] then Parsed([], [], true)
                            else ReadElements(k, Parsed([], [], true), Elements(ts)[1..])
    decreases |ts|
  {
    if ts != [] {
      FirstElement(ts);
      if ts[0].StartElement? {
        ReadAllSeesElements(k, Parsed([], [], true), ts[1..]);
      } else {
        ParseSeesElements(k, ts[1..]);
      }
    }
  }

  lemma OneMoreChild(k: Aead, p: Parsed, q: ProfileData)
    ensures ReadElements(k, p, [ElementOf(k, q)]) == Parsed(p.drafts + [DraftOf(q)], p.listed + [|p.drafts|], p.ok)
  {
    ElementRoundTrip(k, p, q);
    var r := ReadElement(k, p, ElementOf(k, q));
    assert ReadElements(k, p, [ElementOf(k, q)]) == ReadElements(k, r, []);
  }

  lemma OneMoreDraft(ps: seq<ProfileData>, q: ProfileData)
    ensures DraftsOf(ps + [q]) == DraftsOf(ps) + [DraftOf(q)]
    ensures Upto(|ps| + 1) == Upto(|ps|) + [|ps|]
  {
  }

  lemma {:induction false} ChildrenRoundTrip(k: Aead, ps: seq<ProfileData>)
    ensures ReadElements(k, Parsed([], [], true), ElementsOf(k, ps)) == Parsed(DraftsOf(ps), Upto(|ps|), true)
    decreases |ps|
  {
    if ps == [] {
      assert ElementsOf(k, ps) == [];
    } else {
      var n := |ps| - 1;
      var front := ps[..n];
      assert ps == front + [ps[n]];
      assert ElementsOf(k, ps) == ElementsOf(k, front) + [ElementOf(k, ps[n])];
      ChildrenRoundTrip(k, front);
      ReadElementsAppend(k, Parsed([], [], true), ElementsOf(k, front), [ElementOf(k, ps[n])]);
      OneMoreChild(k, Parsed(DraftsOf(front), Upto(n), true), ps[n]);
      OneMoreDraft(front, ps[n]);
    }
  }

  /**
   The tokens of a saved document, with anything but elements in between, parse to
   exactly the profiles that were saved.
   */
  lemma ParseOfDocument(k: Aead, ps: seq<ProfileData>, ts: seq<XmlToken>)
    requires Elements(ts) == ElementsIn(DocumentOf(k, ps))
    ensures Parse(k, ts) == Parsed(DraftsOf(ps), Upto(|ps|), true)
  {
    ParseSeesElements(k, ts);
    assert Elements(ts)[1..] == ElementsOf(k, ps);
    ChildrenRoundTrip(k, ps);
  }

  lemma SavedDocumentIsPlain(k: Aead, ps: seq<ProfileData>)
    ensures Plain(DocumentOf(k, ps))
  {
    forall i | 0 <= i < |ps|
      ensures PlainElement(ElementOf(k, ps[i]))
    {
      ElementIsPlain(k, ps[i]);
    }
  }

  lemma ElementIsPlain(k: Aead, p: ProfileData)
    ensures PlainElement(ElementOf(k, p))
  {
    PrintIsPlain(p.port);
    var e := ElementOf(k, p);
    forall a | a in e.attributes
      ensures forall i :: 0 <= i < |e.attributes[a]| ==> IsPlain(e.attributes[a][i])
    {
      HexIsPlain(k, p.name);
      HexIsPlain(k, p.address);
      HexIsPlain(k, p.password);
    }
  }

  lemma HexIsPlain(k: Aead, text: Bytes)
    ensures forall i :: 0 <= i < |Encrypt(k, text)| ==> IsPlain(Encrypt(k, text)[i])
  {
  }

  lemma PrintIsPlain(n: int)
    ensures forall i :: 0 <= i < |Print(n)| ==> IsPlain(Print(n)[i])
  {
  }

  /** The file as `SaveProfiles` leaves it. */
  function Saved(k: Aead, xml: Xml, ps: seq<ProfileData>): Bytes {
    Encrypt(k, xml.render(DocumentOf(k, ps)))
  }

  /** Both layers of encryption and the document between them undone. */
  lemma SavedReadsBack(k: Aead, xml: Xml, ps: seq<ProfileData>)
    requires LawfulXml(xml)
    ensures var outcome := Decrypt(k, JoinLines(Saved(k, xml, ps)));
            && outcome.ok
            && !xml.scan(outcome.text).hasError
            && Parse(k, xml.scan(outcome.text).tokens) == Parsed(DraftsOf(ps), Upto(|ps|), true)
  {
    var d := DocumentOf(k, ps);
    FileRoundTrip(k, xml.render(d));
    SavedDocumentIsPlain(k, ps);
    ParseOfDocument(k, ps, xml.scan(xml.render(d)).tokens);
  }

  // ---- the objects ----

  class Profile {
    var name: Bytes
    var address: Bytes
    var password: Bytes
    var port: int32
    var isDefault: bool

    function Value(): ProfileData
      reads this
    {
      ProfileData(name, address, password, port, isDefault)
    }

    /** `new Profile()`: port and flag are whatever the memory held. */
    constructor Blank(port: int32, isDefault: bool)
      ensures Value() == ProfileData([], [], [], port, isDefault)
    {
      name, address, password := [], [], [];
      this.port, this.isDefault := port, isDefault;
    }

    constructor (name: Bytes, address: Bytes, password: Bytes, port: int32, isDefault: bool)
      ensures Value() == ProfileData(name, address, password, port, isDefault)
    {
      this.name, this.address, this.password := name, address, password;
      this.port, this.isDefault := port, isDefault;
    }

    predicate Matches(d: Draft)
      reads this
    {
      && name == d.name && address == d.address && password == d.password
      && (d.port.Some? ==> port == d.port.value)
      && (d.isDefault.Some? ==> isDefault == d.isDefault.value)
    }
  }

  predicate Distinct(ps: seq<Profile>) { forall i, j :: 0 <= i < j < |ps| ==> ps[i] != ps[j] }

  /** The objects hold these profiles, in this order. */
  predicate Shows(objects: seq<Profile>, ps: seq<ProfileData>)
    reads objects
  {
    |objects| == |ps| && forall i :: 0 <= i < |objects| ==> objects[i].Value() == ps[i]
  }

  lemma OneMoreElement(k: Aead, ps: seq<ProfileData>, i: nat)
    requires i < |ps|
    ensures ElementsOf(k, ps[..i + 1]) == ElementsOf(k, ps[..i]) + [ElementOf(k, ps[i])]
  {
  }

  class ProfileManager {
    const crypto: Crypto
    const xml: Xml
    var file: File

    constructor (crypto: Crypto, xml: Xml, file: File)
      ensures this.crypto == crypto && this.xml == xml && this.file == file
    {
      this.crypto, this.xml, this.file := crypto, xml, file;
    }

    /** One node of the document: lines 81-86. */
    method ProfileNode(p: Profile) returns (profileDomNode: Element)
      ensures profileDomNode == ElementOf(crypto.key, p.Value())
    {
      var name := crypto.EncryptString(p.name);
      var address := crypto.EncryptString(p.address);
      var password := crypto.EncryptString(p.password);
      profileDomNode := Element(ProfileTag, map[
        ProfileName := name,
        ProfileIPAddress := address,
        ProfilePassword := password,
        ProfileTCPPort := Print(p.port),
        ProfileIsDefault := FlagText(p.isDefault)]);
    }

    /** The nodes under the root, one for each profile: lines 79-88. */
    method ProfileNodes(selectedProfiles: seq<Profile>, ghost ps: seq<ProfileData>) returns (children: seq<Element>)
      requires Shows(selectedProfiles, ps)
      ensures children == ElementsOf(crypto.key, ps)
    {
      children := [];
      for i := 0 to |selectedProfiles|
        invariant children == ElementsOf(crypto.key, ps[..i])
      {
        var profileDomNode := ProfileNode(selectedProfiles[i]);
        OneMoreElement(crypto.key, ps, i);
        children := children + [profileDomNode];
      }
      assert ps[..|ps|] == ps;
    }

    method SaveProfiles(selectedProfiles: seq<Profile>, ghost ps: seq<ProfileData>) returns (ok: bool)
      requires Shows(selectedProfiles, ps)
      modifies `file
      ensures ok == old(file.writable) && file.writable == ok && file.removable == old(file.removable)
      ensures ok ==> file.content == Some(Saved(crypto.key, xml, ps))
      ensures !ok ==> file.content == if file.removable then None else old(file.content)
    {
      var children := ProfileNodes(selectedProfiles, ps);
      file, ok := crypto.EncryptSettingsFile(file, xml.render(Document(ProfilesTag, children)));
    }

    /** One attribute of the current element, decrypted. */
    method ReadField(e: Element, a: Attribute) returns (text: Bytes)
      requires a in e.attributes
      modifies crypto
      ensures text == Field(crypto.key, e, a).text
      ensures crypto.invalidKey == (old(crypto.invalidKey) || !Field(crypto.key, e, a).ok)
    {
      text := crypto.DecryptString(e.attributes[a]);
    }

    /** The attributes that go to the current profile: lines 48-59. */
    method FillProfile(currentProfile: Profile, e: Element, ghost d: Draft)
      requires currentProfile.Matches(d)
      modifies currentProfile, crypto
      ensures currentProfile.Matches(Drafted(crypto.key, e, d))
      ensures crypto.invalidKey == (old(crypto.invalidKey)
                || !Field(crypto.key, e, ProfileIPAddress).ok || !Field(crypto.key, e, ProfilePassword).ok)
    {
      if ProfileIPAddress in e.attributes {
        currentProfile.address := ReadField(e, ProfileIPAddress);
      }
      if ProfilePassword in e.attributes {
        currentProfile.password := ReadField(e, ProfilePassword);
      }
      if ProfileTCPPort in e.attributes {
        currentProfile.port := ToInt(e.attributes[ProfileTCPPort]);
      }
      if ProfileIsDefault in e.attributes {
        currentProfile.isDefault := ToInt(e.attributes[ProfileIsDefault]) != 0;
      }
    }

    /** What the objects made so far hold, and which of them are listed. */
    ghost predicate Reflects(objects: seq<Profile>, storedProfiles: seq<Profile>, p: Parsed)
      reads objects
    {
      && Distinct(objects)
      && |objects| == |p.drafts|
      && (forall i :: 0 <= i < |objects| ==> objects[i].Matches(p.drafts[i]))
      && |storedProfiles| == |p.listed|
      && (forall j :: 0 <= j < |p.listed| ==> p.listed[j] < |objects| && storedProfiles[j] == objects[p.listed[j]])
    }

    ghost function Latest(objects: seq<Profile>): Profile? {
      if objects == [] then null else objects[|objects| - 1]
    }

    /** `new Profile()` and its name; port and flag are whatever the memory held. */
    method NamedProfile(e: Element) returns (p: Profile)
      requires ProfileName in e.attributes
      modifies crypto
      ensures fresh(p) && p.Matches(Draft(Field(crypto.key, e, ProfileName).text, [], [], None, None))
      ensures crypto.invalidKey == (old(crypto.invalidKey) || !Field(crypto.key, e, ProfileName).ok)
    {
      var port: int32, isDefault: bool := *, *;
      p := new Profile.Blank(port, isDefault);
      var name := ReadField(e, ProfileName);
      p.name := name;
    }

    /** The name attribute: a new object becomes the current profile; lines 40-44. */
    method StartProfile(e: Element, current: Profile?, ghost objects: seq<Profile>, ghost p: Parsed, listed: seq<Profile>)
      returns (currentProfile: Profile?, ghost made: seq<Profile>)
      requires Reflects(objects, listed, p) && current == Latest(objects)
      requires crypto.invalidKey == !p.ok
      modifies crypto
      ensures forall i :: 0 <= i < |made| ==> made[i] in objects || fresh(made[i])
      ensures Reflects(made, listed, Started(crypto.key, p, e)) && currentProfile == Latest(made)
      ensures crypto.invalidKey == !Started(crypto.key, p, e).ok
    {
      currentProfile, made := current, objects;
      if ProfileName in e.attributes {
        currentProfile := NamedProfile(e);
        made := made + [currentProfile];
      }
    }

    /** The other attributes, for the current profile if there is one; lines 46-62. */
    method FinishProfile(e: Element, currentProfile: Profile?, listed: seq<Profile>, ghost made: seq<Profile>, ghost p: Parsed)
      returns (storedProfiles: seq<Profile>)
      requires Reflects(made, listed, p) && currentProfile == Latest(made)
      requires crypto.invalidKey == !p.ok
      modifies made, crypto
      ensures Reflects(made, storedProfiles, Finished(crypto.key, p, e))
      ensures crypto.invalidKey == !Finished(crypto.key, p, e).ok
    {
      storedProfiles := listed;
      if currentProfile != null {
        FillProfile(currentProfile, e, p.drafts[|made| - 1]);
        if ProfileIsDefault in e.attributes {
          storedProfiles := storedProfiles + [currentProfile];
        }
      }
    }

    /** One token of the inner loop: lines 36-63. */
    method ReadInnerToken(
        t: XmlToken, current: Profile?, listed: seq<Profile>, ghost objects: seq<Profile>, ghost p: Parsed)
      returns (currentProfile: Profile?, storedProfiles: seq<Profile>, ghost made: seq<Profile>)
      requires Reflects(objects, listed, p) && current == Latest(objects)
      requires crypto.invalidKey == !p.ok
      modifies objects, crypto
      ensures forall i :: 0 <= i < |made| ==> made[i] in objects || fresh(made[i])
      ensures Reflects(made, storedProfiles, ReadToken(crypto.key, p, t)) && currentProfile == Latest(made)
      ensures crypto.invalidKey == !ReadToken(crypto.key, p, t).ok
    {
      currentProfile, storedProfiles, made := current, listed, objects;
      if t.StartElement? && t.element.tag == ProfileTag {
        currentProfile, made := StartProfile(t.element, current, objects, p, listed);
        storedProfiles := FinishProfile(t.element, currentProfile, listed, made, Started(crypto.key, p, t.element));
      }
    }

    /** The inner loop: it reads to the end of the stream. */
    method ReadInner(tokens: seq<XmlToken>)
      returns (storedProfiles: seq<Profile>, ghost made: seq<Profile>)
      requires !crypto.invalidKey
      modifies crypto
      ensures fresh(made)
      ensures Reflects(made, storedProfiles, ReadAll(crypto.key, Parsed([], [], true), tokens))
      ensures crypto.invalidKey == !ReadAll(crypto.key, Parsed([], [], true), tokens).ok
    {
      storedProfiles, made := [], [];
      var currentProfile: Profile? := null;
      ghost var p := Parsed([], [], true);
      var i := 0;
      while i < |tokens|
        invariant 0 <= i <= |tokens|
        invariant fresh(made)
        invariant Reflects(made, storedProfiles, p) && currentProfile == Latest(made)
        invariant crypto.invalidKey == !p.ok
        invariant ReadAll(crypto.key, p, tokens[i..]) == ReadAll(crypto.key, Parsed([], [], true), tokens)
      {
        assert tokens[i..][1..] == tokens[i + 1..];
        currentProfile, storedProfiles, made := ReadInnerToken(tokens[i], currentProfile, storedProfiles, made, p);
        p := ReadToken(crypto.key, p, tokens[i]);
        i := i + 1;
      }
    }

    /** The whole of `GetProfiles`, whatever the file holds. */
    method GetProfiles() returns (storedProfiles: seq<Profile>, ghost made: seq<Profile>)
      modifies crypto
      ensures fresh(made)
      ensures Reflects(made, storedProfiles, Loaded(crypto.key, xml, file, old(crypto.invalidKey)))
      ensures crypto.invalidKey ==
              (old(crypto.invalidKey) || !Loaded(crypto.key, xml, file, old(crypto.invalidKey)).ok)
    {
      storedProfiles, made := [], [];
      var xmlContent := crypto.DecryptSettingsFile(file);
      if !crypto.invalidKey {
        var reading := xml.scan(xmlContent);
        var tokens := reading.tokens;
        var i := 0;
        ghost var done := false;
        while i < |tokens|
          invariant 0 <= i <= |tokens|
          invariant fresh(made)
          invariant !done ==> made == [] && storedProfiles == [] && !crypto.invalidKey
                              && Parse(crypto.key, tokens[i..]) == Parse(crypto.key, tokens)
          invariant done ==> i == |tokens|
                             && Reflects(made, storedProfiles, Parse(crypto.key, tokens))
                             && crypto.invalidKey == !Parse(crypto.key, tokens).ok
        {
          var outerToken := tokens[i];
          assert tokens[i..][1..] == tokens[i + 1..];
          i := i + 1;
          if outerToken.StartElement? {
            storedProfiles, made := ReadInner(tokens[i..]);
            i := |tokens|;
            done := true;
          }
        }
        if reading.hasError {
          storedProfiles := [];
        }
      }
    }
  }

  /** What `GetProfiles` lists, and whether any decryption failed on the way. */
  function Loaded(k: Aead, xml: Xml, file: File, invalidKey: bool): Parsed {
    var content := if file.content.Some? then Decrypt(k, JoinLines(file.content.value)) else Opened(true, []);
    if invalidKey || !content.ok then Parsed([], [], content.ok)
    else
      var reading := xml.scan(content.text);
      var p := Parse(k, reading.tokens);
      if reading.hasError then p.(listed := []) else p
  }

  /**
   The round trip on values: with the key still good, loading what was saved gives
   the same profiles in the same order, for every list of profiles.
   */
  lemma LoadedIsSaved(k: Aead, xml: Xml, file: File, ps: seq<ProfileData>)
    requires LawfulXml(xml) && file.content == Some(Saved(k, xml, ps))
    ensures Loaded(k, xml, file, false) == Parsed(DraftsOf(ps), Upto(|ps|), true)
  {
    SavedReadsBack(k, xml, ps);
  }

  /** The file holds this list of profiles; a missing file holds the empty one. */
  predicate Stores(k: Aead, xml: Xml, file: File, ps: seq<ProfileData>) {
    file.content == Some(Saved(k, xml, ps)) || (file.content.None? && ps == [])
  }

  /** Loading finds the profiles that are stored, complete and in order. */
  lemma LoadedIsStored(k: Aead, xml: Xml, file: File, ps: seq<ProfileData>)
    requires LawfulXml(xml) && Stores(k, xml, file, ps)
    ensures var p := Loaded(k, xml, file, false);
            && |p.listed| == |ps|
            && (forall i :: 0 <= i < |ps| ==>
                  p.listed[i] == i && i < |p.drafts| && p.drafts[i] == DraftOf(ps[i]))
    ensures Loaded(k, xml, file, false).ok
  {
    if file.content.Some? {
      LoadedIsSaved(k, xml, file, ps);
    } else {
      ParseSeesElements(k, xml.scan([]).tokens);
    }
  }

  /** The file does not decrypt with this key. */
  predicate Unreadable(k: Aead, file: File) {
    file.content.Some? && !Decrypt(k, JoinLines(file.content.value)).ok
  }

  /**
   A load shows `ps`: what is stored, if the key has been good so far and still is,
   and nothing otherwise.
   */
  ghost predicate Holds(manager: ProfileManager, ps: seq<ProfileData>)
    reads manager, manager.crypto
  {
    && LawfulXml(manager.xml)
    && if manager.crypto.invalidKey || Unreadable(manager.crypto.key, manager.file) then ps == []
       else Stores(manager.crypto.key, manager.xml, manager.file, ps)
  }

  lemma UnreadableShowsNothing(k: Aead, xml: Xml, file: File, invalidKey: bool)
    requires invalidKey || Unreadable(k, file)
    ensures Loaded(k, xml, file, invalidKey).listed == [] && Loaded(k, xml, file, invalidKey).drafts == []
    ensures invalidKey || !Loaded(k, xml, file, invalidKey).ok
  {
  }

  /** A text that is not a document lists nothing, even if profiles were read before the error. */
  lemma ErrorListsNothing(k: Aead, xml: Xml, file: File, invalidKey: bool)
    requires file.content.Some? && xml.scan(Decrypt(k, JoinLines(file.content.value)).text).hasError
    ensures Loaded(k, xml, file, invalidKey).listed == []
  {
  }

  /** `GetProfiles` over such a store: distinct fresh objects that hold what a load shows. */
  method LoadStored(manager: ProfileManager, ghost ps: seq<ProfileData>) returns (storedProfiles: seq<Profile>)
    requires Holds(manager, ps)
    modifies manager.crypto
    ensures Shows(storedProfiles, ps)
    ensures Distinct(storedProfiles) && fresh(storedProfiles)
    ensures Holds(manager, ps)
    ensures manager.crypto.invalidKey
         == (old(manager.crypto.invalidKey) || Unreadable(manager.crypto.key, manager.file))
  {
    if manager.crypto.invalidKey || Unreadable(manager.crypto.key, manager.file) {
      UnreadableShowsNothing(manager.crypto.key, manager.xml, manager.file, manager.crypto.invalidKey);
    } else {
      LoadedIsStored(manager.crypto.key, manager.xml, manager.file, ps);
    }
    ghost var made;
    storedProfiles, made := manager.GetProfiles();
  }

  /** What a save does to what later loads show. */
  datatype Saving = Written | Emptied | Kept

  /**
   With a bad key every load shows nothing. Otherwise the file is written, or it is
   removed and cannot be written again, or nothing happens to it.
   */
  function SavingOf(manager: ProfileManager): Saving
    reads manager, manager.crypto
  {
    if manager.crypto.invalidKey then Emptied
    else if manager.file.writable then Written
    else if manager.file.removable then Emptied
    else Kept
  }

  /** What a load shows once `ps` was saved over a store that showed `was`. */
  function AfterSaving(o: Saving, was: seq<ProfileData>, ps: seq<ProfileData>): seq<ProfileData> {
    match o
    case Written => ps
    case Emptied => []
    case Kept => was
  }

  lemma SavedIsReadable(k: Aead, xml: Xml, file: File, ps: seq<ProfileData>)
    requires file.content == Some(Saved(k, xml, ps))
    ensures !Unreadable(k, file)
  {
    FileRoundTrip(k, xml.render(DocumentOf(k, ps)));
  }

  /** A save, whatever comes of it. */
  method SaveStored(manager: ProfileManager, profiles: seq<Profile>, ghost was: seq<ProfileData>, ghost ps: seq<ProfileData>)
    requires Holds(manager, was) && Shows(profiles, ps)
    modifies manager
    ensures Holds(manager, AfterSaving(old(SavingOf(manager)), was, ps))
    ensures SavingOf(manager) == old(SavingOf(manager))
  {
    var ok := manager.SaveProfiles(profiles, ps);
    if ok {
      SavedIsReadable(manager.crypto.key, manager.xml, manager.file, ps);
    }
  }

  /**
   The round trip on objects: a load after a save returns distinct fresh objects; if
   the key is good and the save succeeded, as many as were saved, in the same order
   and field by field the same. A failed save shows the old store, or nothing if the
   old file is gone.
   */
  method SaveThenLoad(manager: ProfileManager, profiles: seq<Profile>, ghost was: seq<ProfileData>, ghost ps: seq<ProfileData>)
    returns (loaded: seq<Profile>)
    requires Holds(manager, was) && Shows(profiles, ps)
    modifies manager, manager.crypto
    ensures Shows(loaded, AfterSaving(old(SavingOf(manager)), was, ps)) && Distinct(loaded) && fresh(loaded)
    ensures old(!manager.crypto.invalidKey && manager.file.writable) ==> Shows(loaded, ps)
    ensures Holds(manager, AfterSaving(old(SavingOf(manager)), was, ps))
  {
    ghost var shown := AfterSaving(SavingOf(manager), was, ps);
    SaveStored(manager, profiles, was, ps);
    loaded := LoadStored(manager, shown);
  }
}
