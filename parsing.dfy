/**
  * `WebpageParser`: the link index built while the HTML tokenizer walks the
  * hospital's page. The tokenizer itself is not modelled; its output is the
  * sequence of start-tag, end-tag and text events it hands to the handlers.
  */
module Parsing {
  import opened Wrappers
  import opened Errors
  import PyStr

  /** One attribute of a start tag; a valueless attribute (`<a download>`) has no value. */
  datatype Attr = Attr(name: string, value: Option<string>)

  /** What the tokenizer reports, in document order. */
  datatype Event =
    | StartTag(tag: string, attrs: seq<Attr>)
    | EndTag(tag: string)
    | Data(text: string)

  /** A key of the link index: a `title` attribute's value, or stripped link text. */
  type Label = Option<string>

  /** A recorded link target: an `href` attribute's value (absent for a valueless `href`). */
  type Href = Option<string>

  /** The parser's two fields: the pending href and the index from labels to hrefs. */
  datatype ParserState = ParserState(pending: Href, pairs: map<Label, Href>)

  /** A fresh parser: nothing pending (the empty string) and an empty index. */
  const Initial := ParserState(Some(""), map[])

  /** `dict(attrs)`: later attributes of the same name overwrite earlier ones. */
  function AttrDict(attrs: seq<Attr>): (d: map<string, Option<string>>)
    ensures attrs != [] ==> attrs[|attrs| - 1].name in d && d[attrs[|attrs| - 1].name] == attrs[|attrs| - 1].value
  {
    if attrs == [] then map[]
    else AttrDict(attrs[..|attrs| - 1])[attrs[|attrs| - 1].name := attrs[|attrs| - 1].value]
  }

  /** Some attribute is called `name`. */
  predicate HasAttr(attrs: seq<Attr>, name: string) {
    exists i | 0 <= i < |attrs| :: attrs[i].name == name
  }

  /** `dict(attrs)` has a key for exactly the names that occur. */
  lemma {:induction false} AttrDictKeys(attrs: seq<Attr>, name: string)
    ensures name in AttrDict(attrs) <==> HasAttr(attrs, name)
  {
    if attrs != [] {
      var init := attrs[..|attrs| - 1];
      AttrDictKeys(init, name);
      if HasAttr(attrs, name) && attrs[|attrs| - 1].name != name {
        var i :| 0 <= i < |attrs| && attrs[i].name == name;
        assert init[i].name == name;
      }
      if HasAttr(init, name) {
        var i :| 0 <= i < |init| && init[i].name == name;
        assert attrs[i].name == name;
      }
    }
  }

  /** `dict(attrs)[name]` is the value of the last attribute called `name`. */
  lemma {:induction false} AttrDictLast(attrs: seq<Attr>, name: string, i: nat)
    requires i < |attrs| && attrs[i].name == name
    requires forall j | i < j < |attrs| :: attrs[j].name != name
    ensures name in AttrDict(attrs) && AttrDict(attrs)[name] == attrs[i].value
  {
    if i < |attrs| - 1 {
      AttrDictLast(attrs[..|attrs| - 1], name, i);
    }
  }

  /** An `a` start tag with a `title` attribute but no `href`: indexing `attrs_dict['href']` raises. */
  predicate Faulty(e: Event) {
    e.StartTag? && e.tag == "a" && "title" in AttrDict(e.attrs) && "href" !in AttrDict(e.attrs)
  }

  /** An `a` start tag with a `title` attribute. */
  predicate Titled(e: Event) {
    e.StartTag? && e.tag == "a" && "title" in AttrDict(e.attrs)
  }

  /**
    * What one handler does to the parser state: an `a` start tag with a
    * title records its href under the title at once; one without a title
    * makes its last `href` (if any) pending; other start tags change nothing;
    * an end tag clears the pending href; text records the pending href under
    * the stripped text and clears it.
    */
  function Step(s: ParserState, e: Event): (r: Result<ParserState, ScrapeError>)
    ensures r.Failure? <==> Faulty(e)
    ensures r.Failure? ==> r.error == HrefKeyError
  {
    match e
    case StartTag(tag, attrs) =>
      if tag != "a" then Success(s)
      else
        var d := AttrDict(attrs);
        if "title" in d then
          if "href" in d then Success(s.(pairs := s.pairs[d["title"] := d["href"]]))
          else Failure(HrefKeyError)
        else Success(s.(pending := if "href" in d then d["href"] else s.pending))
    case EndTag(_) => Success(s.(pending := Some("")))
    case Data(text) => Success(ParserState(Some(""), s.pairs[Some(PyStr.Strip(text)) := s.pending]))
  }

  /** The index key an event writes, if it writes one. */
  function WriteKey(e: Event): Option<Label> {
    if Titled(e) then Some(AttrDict(e.attrs)["title"])
    else if e.Data? then Some(Some(PyStr.Strip(e.text)))
    else None
  }

  /** The href an event writes in state `s`, when it writes one. */
  function WrittenValue(s: ParserState, e: Event): Href
    requires WriteKey(e).Some? && !Faulty(e)
  {
    if Titled(e) then AttrDict(e.attrs)["href"] else s.pending
  }

  /** One successful step writes exactly its key, with exactly its value, and no other entry changes. */
  lemma StepPairs(s: ParserState, e: Event)
    requires !Faulty(e)
    ensures Step(s, e).Success?
    ensures Step(s, e).value.pairs
         == if WriteKey(e).Some? then s.pairs[WriteKey(e).value := WrittenValue(s, e)] else s.pairs
  {
    match e
    case StartTag(tag, attrs) =>
      if tag == "a" && "title" in AttrDict(attrs) {
        assert Titled(e);
      } else {
        assert WriteKey(e).None?;
      }
    case EndTag(_) =>
    case Data(text) =>
      assert !Titled(e);
  }

  /** The handlers applied to `events` in order, stopping at the first that raises. */
  function Run(s: ParserState, events: seq<Event>): (r: Result<ParserState, ScrapeError>)
    ensures events == [] ==> r == Success(s)
    ensures r.Failure? ==> r.error == HrefKeyError
  {
    if events == [] then Success(s)
    else
      match Run(s, events[..|events| - 1])
      case Failure(err) => Failure(err)
      case Success(t) => Step(t, events[|events| - 1])
  }

  /** Feeding one event is one step. */
  lemma RunSingle(s: ParserState, e: Event)
    ensures Run(s, [e]) == Step(s, e)
  {
    assert [e][..0] == [];
  }

  /** Feeding events in two parts is feeding them at once. */
  lemma {:induction false} RunAppend(s: ParserState, a: seq<Event>, b: seq<Event>)
    ensures Run(s, a + b) == match Run(s, a) case Failure(err) => Failure(err) case Success(t) => Run(t, b)
  {
    if b != [] {
      assert (a + b)[..|a + b| - 1] == a + b[..|b| - 1];
      RunAppend(s, a, b[..|b| - 1]);
    } else {
      assert a + b == a;
    }
  }

  /** Some event is an anchor whose title has no href. */
  predicate AnyFaulty(events: seq<Event>) {
    exists i | 0 <= i < |events| :: Faulty(events[i])
  }

  /**
    * Feeding fails exactly when some event is an anchor with a title and no
    * href, and then with `KeyError: 'href'`.
    */
  lemma {:induction false} RunFailsIff(s: ParserState, events: seq<Event>)
    ensures Run(s, events).Failure? <==> AnyFaulty(events)
    ensures Run(s, events).Failure? ==> Run(s, events).error == HrefKeyError
  {
    if events != [] {
      var init := events[..|events| - 1];
      RunFailsIff(s, init);
      if AnyFaulty(init) {
        var i :| 0 <= i < |init| && Faulty(init[i]);
        assert Faulty(events[i]);
      }
      if AnyFaulty(events) && !Faulty(events[|events| - 1]) {
        var i :| 0 <= i < |events| && Faulty(events[i]);
        assert Faulty(init[i]);
      }
    }
  }

  /** The keys the events write, as a set. */
  function WrittenKeys(events: seq<Event>): set<Label> {
    if events == [] then {}
    else
      var e := events[|events| - 1];
      WrittenKeys(events[..|events| - 1]) + (if WriteKey(e).Some? then {WriteKey(e).value} else {})
  }

  /** After feeding, the index holds the keys it held before plus exactly the keys written. */
  lemma {:induction false} RunKeys(s: ParserState, events: seq<Event>)
    requires Run(s, events).Success?
    ensures Run(s, events).value.pairs.Keys == s.pairs.Keys + WrittenKeys(events)
  {
    if events != [] {
      var init := events[..|events| - 1];
      RunKeys(s, init);
      StepPairs(Run(s, init).value, events[|events| - 1]);
    }
  }

  /**
    * Last write wins: after feeding, a key holds the value written by the
    * last event that writes it, computed in the state just before that event.
    */
  lemma {:induction false} LastWriteWins(s: ParserState, events: seq<Event>, i: nat, k: Label)
    requires Run(s, events).Success?
    requires i < |events| && WriteKey(events[i]) == Some(k)
    requires forall j | i < j < |events| :: WriteKey(events[j]) != Some(k)
    ensures Run(s, events[..i]).Success? && !Faulty(events[i])
    ensures k in Run(s, events).value.pairs
    ensures Run(s, events).value.pairs[k] == WrittenValue(Run(s, events[..i]).value, events[i])
  {
    var init := events[..|events| - 1];
    RunFailsIff(s, events);
    RunFailsIff(s, events[..i]);
    assert !AnyFaulty(events[..i]) by {
      forall j | 0 <= j < i ensures !Faulty(events[..i][j]) {
        assert events[..i][j] == events[j];
      }
    }
    StepPairs(Run(s, init).value, events[|events| - 1]);
    if i < |events| - 1 {
      assert init[..i] == events[..i];
      LastWriteWins(s, init, i, k);
    } else {
      assert init == events[..i];
    }
  }

  /** A key no event writes keeps what it had before feeding. */
  lemma {:induction false} UnwrittenKept(s: ParserState, events: seq<Event>, k: Label)
    requires Run(s, events).Success? && k !in WrittenKeys(events)
    ensures k in Run(s, events).value.pairs <==> k in s.pairs
    ensures k in s.pairs ==> Run(s, events).value.pairs[k] == s.pairs[k]
  {
    if events != [] {
      var init := events[..|events| - 1];
      UnwrittenKept(s, init, k);
      StepPairs(Run(s, init).value, events[|events| - 1]);
    }
  }

  /** Start tags other than `a`. */
  predicate NonAnchorStarts(events: seq<Event>) {
    forall i | 0 <= i < |events| :: events[i].StartTag? && events[i].tag != "a"
  }

  /** Start tags other than `a` leave the parser state exactly as it was. */
  lemma {:induction false} NonAnchorStartsIgnored(s: ParserState, events: seq<Event>)
    requires NonAnchorStarts(events)
    ensures Run(s, events) == Success(s)
  {
    if events != [] {
      NonAnchorStartsIgnored(s, events[..|events| - 1]);
    }
  }

  /**
    * Text attribution: after an `a` start tag without a title, and any start
    * tags other than `a`, the next text is recorded under its stripped form
    * with the anchor's last `href`, and the pending href is cleared.
    */
  lemma TextAttribution(s: ParserState, attrs: seq<Attr>, between: seq<Event>, text: string)
    requires "title" !in AttrDict(attrs) && "href" in AttrDict(attrs)
    requires NonAnchorStarts(between)
    ensures var r := Run(s, [StartTag("a", attrs)] + between + [Data(text)]);
      && r.Success?
      && r.value.pending == Some("")
      && r.value.pairs == s.pairs[Some(PyStr.Strip(text)) := AttrDict(attrs)["href"]]
  {
    var a := StartTag("a", attrs);
    var t := s.(pending := AttrDict(attrs)["href"]);
    assert Run(s, [a]) == Success(t) by {
      assert [a][..0] == [];
    }
    NonAnchorStartsIgnored(t, between);
    RunAppend(s, [a], between);
    RunAppend(s, [a] + between, [Data(text)]);
    assert [Data(text)][..0] == [];
  }

  /**
    * Title priority: an `a` start tag with a title records its href under the
    * title and leaves the pending href alone, so the text inside it is
    * recorded with whatever was pending before, not with that href.
    */
  lemma TitledAnchorText(s: ParserState, attrs: seq<Attr>, text: string)
    requires "title" in AttrDict(attrs) && "href" in AttrDict(attrs)
    ensures var r := Run(s, [StartTag("a", attrs), Data(text)]);
      && r.Success?
      && r.value.pairs
         == s.pairs[AttrDict(attrs)["title"] := AttrDict(attrs)["href"]][Some(PyStr.Strip(text)) := s.pending]
  {
    var a := StartTag("a", attrs);
    RunSingle(s, a);
    RunAppend(s, [a], [Data(text)]);
    RunSingle(Step(s, a).value, Data(text));
    assert [a] + [Data(text)] == [a, Data(text)];
  }

  /**
    * Stray text: text that follows an end tag or other text is recorded with
    * the empty string, because both clear the pending href.
    */
  lemma StrayText(s: ParserState, e: Event, text: string)
    requires e.EndTag? || e.Data?
    ensures var r := Run(s, [e, Data(text)]);
      r.Success? && r.value.pairs[Some(PyStr.Strip(text))] == Some("")
  {
    RunSingle(s, e);
    RunAppend(s, [e], [Data(text)]);
    RunSingle(Step(s, e).value, Data(text));
    assert [e] + [Data(text)] == [e, Data(text)];
  }

  /**
    * An anchor whose text is its own title: the text is recorded after the
    * title, with the href that was pending before the anchor (the empty
    * string in a fresh parser), and overwrites the href the title recorded.
    */
  lemma TitleTextClobbers(s: ParserState, attrs: seq<Attr>, text: string)
    requires "title" in AttrDict(attrs) && "href" in AttrDict(attrs)
    requires AttrDict(attrs)["title"] == Some(PyStr.Strip(text))
    ensures var r := Run(s, [StartTag("a", attrs), Data(text)]);
      r.Success? && r.value.pairs[AttrDict(attrs)["title"]] == s.pending
  {
    TitledAnchorText(s, attrs, text);
  }

  /** The parser object: the two fields the handlers update. */
  class WebpageParser {
    var currentValue: Href
    var urlTextPairs: map<Label, Href>

    /** The fields as a value. */
    function State(): ParserState
      reads this
    {
      ParserState(currentValue, urlTextPairs)
    }

    constructor()
      ensures State() == Initial
    {
      currentValue := Some("");
      urlTextPairs := map[];
    }

    /**
      * `handle_starttag`: does what `Step` says a start tag does; on
      * `KeyError` nothing has changed.
      */
    method HandleStartTag(tag: string, attrs: seq<Attr>) returns (r: Result<(), ScrapeError>)
      modifies this
      ensures r.Success? ==> Step(old(State()), StartTag(tag, attrs)) == Success(State())
      ensures r.Failure? ==> Step(old(State()), StartTag(tag, attrs)) == Failure(r.error) && State() == old(State())
    {
      r := Success(());
      if tag == "a" {
        var attrsDict := AttrDict(attrs);
        if "title" in attrsDict {
          if "href" !in attrsDict {
            return Failure(HrefKeyError);
          }
          urlTextPairs := urlTextPairs[attrsDict["title"] := attrsDict["href"]];
        } else {
          for i := 0 to |attrs|
            invariant urlTextPairs == old(urlTextPairs)
            invariant currentValue
              == if "href" in AttrDict(attrs[..i]) then AttrDict(attrs[..i])["href"] else old(currentValue)
          {
            assert attrs[..i + 1][..i] == attrs[..i];
            if attrs[i].name == "href" {
              currentValue := attrs[i].value;
            }
          }
          assert attrs[..|attrs|] == attrs;
        }
      }
    }

    /** `handle_endtag`: any end tag clears the pending href. */
    method HandleEndTag(tag: string)
      modifies this
      ensures Step(old(State()), EndTag(tag)) == Success(State())
    {
      currentValue := Some("");
    }

    /** `handle_data`: the stripped text is recorded with the pending href, which is then cleared. */
    method HandleData(data: string)
      modifies this
      ensures Step(old(State()), Data(data)) == Success(State())
    {
      urlTextPairs := urlTextPairs[Some(PyStr.Strip(data)) := currentValue];
      currentValue := Some("");
    }

    /**
      * `feed`: the handlers called on each event in order; an exception from a
      * handler stops feeding and propagates.
      */
    method Feed(events: seq<Event>) returns (r: Result<(), ScrapeError>)
      modifies this
      ensures Run(old(State()), events) == if r.Success? then Success(State()) else Failure(r.error)
    {
      r := Success(());
      for i := 0 to |events|
        invariant Run(old(State()), events[..i]) == Success(State())
      {
        assert events[..i + 1][..i] == events[..i];
        var e := events[i];
        match e {
          case StartTag(tag, attrs) =>
            var ok := HandleStartTag(tag, attrs);
            if ok.Failure? {
              FailureSticks(old(State()), events, i + 1);
              return Failure(ok.error);
            }
          case EndTag(tag) =>
            HandleEndTag(tag);
          case Data(text) =>
            HandleData(text);
        }
      }
      assert events[..|events|] == events;
    }
  }

  /** Once feeding a prefix fails, feeding the whole sequence fails with the same error. */
  lemma {:induction false} FailureSticks(s: ParserState, events: seq<Event>, n: nat)
    requires n <= |events| && Run(s, events[..n]).Failure?
    ensures Run(s, events) == Run(s, events[..n])
  {
    if n < |events| {
      assert events[..|events| - 1][..n] == events[..n];
      FailureSticks(s, events[..|events| - 1], n);
    } else {
      assert events[..n] == events;
    }
  }
}
