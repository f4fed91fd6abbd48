/** `DuplicateHandler`: finding equal decoded keys in one object from the parser's event stream. */
module DuplicateKeys {
  import opened Prelude
  import opened Json

  /** Parser callbacks.  `Other` stands for scalars, their parts and everything else ignored. */
  datatype Event =
    | ObjectBegin | ObjectEnd | ArrayBegin | ArrayEnd
    | KeyPart(part: Bytes) | KeyEnd(part: Bytes)
    | Other

  // ----- The handler -----

  datatype Frame = Frame(keys: set<Bytes>, key: Bytes)

  datatype State = State(frames: seq<Frame>, duplicate: bool)

  predicate NeedsFrame(e: Event) {
    !e.ObjectBegin? && !e.ArrayBegin? && !e.Other?
  }

  function Top(frames: seq<Frame>): Frame
    requires frames != []
  {
    frames[|frames| - 1]
  }

  function Step(s: State, e: Event): State
    requires NeedsFrame(e) ==> s.frames != []
  {
    match e
    case ObjectBegin => s.(frames := s.frames + [Frame({}, [])])
    case ArrayBegin => s.(frames := s.frames + [Frame({}, [])])
    case ObjectEnd => s.(frames := s.frames[..|s.frames| - 1])
    case ArrayEnd => s.(frames := s.frames[..|s.frames| - 1])
    case KeyPart(part) =>
      s.(frames := s.frames[|s.frames| - 1 := Top(s.frames).(key := Top(s.frames).key + part)])
    case KeyEnd(part) =>
      var key := Top(s.frames).key + part;
      State(s.frames[|s.frames| - 1 := Frame(Top(s.frames).keys + {key}, [])],
            s.duplicate || key in Top(s.frames).keys)
    case Other => s
  }

  class DuplicateHandler {
    var frames: seq<Frame>
    var duplicate: bool

    function View(): State
      reads this
    {
      State(frames, duplicate)
    }

    constructor ()
      ensures View() == State([], false)
    {
      frames, duplicate := [], false;
    }

    method Begin()
      modifies this
      ensures View() == Step(old(View()), ObjectBegin) == Step(old(View()), ArrayBegin)
    {
      frames := frames + [Frame({}, [])];
    }

    method End()
      requires frames != []
      modifies this
      ensures View() == Step(old(View()), ObjectEnd) == Step(old(View()), ArrayEnd)
    {
      frames := frames[..|frames| - 1];
    }

    method OnKeyPart(part: Bytes)
      requires frames != []
      modifies this
      ensures View() == Step(old(View()), KeyPart(part))
    {
      var last := |frames| - 1;
      frames := frames[last := frames[last].(key := frames[last].key + part)];
    }

    method OnKey(part: Bytes)
      requires frames != []
      modifies this
      ensures View() == Step(old(View()), KeyEnd(part))
    {
      OnKeyPart(part);
      var last := |frames| - 1;
      var frame := frames[last];
      if frame.key in frame.keys {
        duplicate := true;
      }
      frames := frames[last := Frame(frame.keys + {frame.key}, [])];
    }

    method Handle(e: Event)
      requires NeedsFrame(e) ==> frames != []
      modifies this
      ensures View() == Step(old(View()), e)
    {
      match e
      case ObjectBegin => Begin();
      case ArrayBegin => Begin();
      case ObjectEnd => End();
      case ArrayEnd => End();
      case KeyPart(part) => OnKeyPart(part);
      case KeyEnd(part) => OnKey(part);
      case Other =>
    }
  }

  // ----- Streams -----

  type ScalarValue = v: Value | !Container(v) witness Null

  /** One way of delivering a document: how each key is cut into parts. */
  datatype Delivery =
    | Leaf(value: ScalarValue, pieces: nat)
    | List(items: seq<Delivery>)
    | Record(entries: seq<Entry>)

  datatype Entry = Entry(parts: seq<Bytes>, last: Bytes, content: Delivery)

  function Join(parts: seq<Bytes>): Bytes {
    if parts == [] then [] else parts[0] + Join(parts[1..])
  }

  /** The document that is being delivered. */
  function Document(d: Delivery): Value {
    match d
    case Leaf(value, _) => value
    case List(items) => Array(seq(|items|, i requires 0 <= i < |items| => Document(items[i])))
    case Record(entries) =>
      Object(seq(|entries|, i requires 0 <= i < |entries| =>
                   Member(Join(entries[i].parts) + entries[i].last, Document(entries[i].content))))
  }

  function KeyStream(parts: seq<Bytes>, last: Bytes): seq<Event> {
    if parts == [] then [KeyEnd(last)] else [KeyPart(parts[0])] + KeyStream(parts[1..], last)
  }

  function Noise(pieces: nat): seq<Event> {
    if pieces == 0 then [] else [Other] + Noise(pieces - 1)
  }

  function Stream(d: Delivery): seq<Event>
    decreases d, 1, 0
  {
    match d
    case Leaf(_, pieces) => Noise(pieces)
    case List(items) => [ArrayBegin] + ItemsFrom(d, 0) + [ArrayEnd]
    case Record(entries) => [ObjectBegin] + EntriesFrom(d, 0) + [ObjectEnd]
  }

  function ItemsFrom(d: Delivery, n: nat): seq<Event>
    requires d.List? && n <= |d.items|
    decreases d, 0, |d.items| - n
  {
    if n == |d.items| then [] else Stream(d.items[n]) + ItemsFrom(d, n + 1)
  }

  function EntriesFrom(d: Delivery, n: nat): seq<Event>
    requires d.Record? && n <= |d.entries|
    decreases d, 0, |d.entries| - n
  {
    if n == |d.entries| then []
    else KeyStream(d.entries[n].parts, d.entries[n].last) + Stream(d.entries[n].content) + EntriesFrom(d, n + 1)
  }

  // ----- The property -----

  /** Some object in the tree has two members with equal keys. */
  ghost predicate HasDuplicate(v: Value) {
    match v
    case Array(items) => exists i :: 0 <= i < |items| && HasDuplicate(items[i])
    case Object(members) =>
      || (exists i, j :: 0 <= i < j < |members| && members[i].key == members[j].key)
      || (exists i :: 0 <= i < |members| && HasDuplicate(members[i].value))
    case _ => false
  }

  // ----- Running the handler over a stream -----

  ghost predicate Runs(s: State, es: seq<Event>)
    decreases |es|
  {
    es == [] || ((NeedsFrame(es[0]) ==> s.frames != []) && Runs(Step(s, es[0]), es[1..]))
  }

  ghost function Run(s: State, es: seq<Event>): State
    requires Runs(s, es)
    decreases |es|
  {
    if es == [] then s else Run(Step(s, es[0]), es[1..])
  }

  /** The handler gets from one state to the other over these events. */
  ghost predicate Leads(s: State, es: seq<Event>, t: State) {
    Runs(s, es) && Run(s, es) == t
  }

  lemma {:induction false} LeadsAppend(s: State, a: seq<Event>, t: State, b: seq<Event>, u: State)
    requires Leads(s, a, t) && Leads(t, b, u)
    ensures Leads(s, a + b, u)
    decreases |a|
  {
    if a == [] {
      assert a + b == b;
    } else {
      LeadsAppend(Step(s, a[0]), a[1..], t, b, u);
      assert (a + b)[1..] == a[1..] + b;
    }
  }

  lemma LeadsOne(s: State, e: Event)
    requires NeedsFrame(e) ==> s.frames != []
    ensures Leads(s, [e], Step(s, e))
  {
    assert [e][1..] == [];
  }

  lemma {:induction false} NoiseLeads(s: State, pieces: nat)
    ensures Leads(s, Noise(pieces), s)
  {
    if pieces > 0 {
      NoiseLeads(s, pieces - 1);
      LeadsOne(s, Other);
      LeadsAppend(s, [Other], s, Noise(pieces - 1), s);
    }
  }

  /** The state inside an object: some keys seen, part of the next key read. */
  function Inside(outer: seq<Frame>, keys: set<Bytes>, key: Bytes, duplicate: bool): State {
    State(outer + [Frame(keys, key)], duplicate)
  }

  /** However a key is cut, it is one key that is added. */
  lemma {:induction false} KeyLeads(
      outer: seq<Frame>, keys: set<Bytes>, key: Bytes, duplicate: bool, parts: seq<Bytes>, last: Bytes)
    ensures
      var whole := key + (Join(parts) + last);
      Leads(Inside(outer, keys, key, duplicate), KeyStream(parts, last),
            Inside(outer, keys + {whole}, [], duplicate || whole in keys))
    decreases |parts|
  {
    var s := Inside(outer, keys, key, duplicate);
    if parts == [] {
      LeadsOne(s, KeyEnd(last));
      assert Join(parts) + last == last;
      assert Step(s, KeyEnd(last)) == Inside(outer, keys + {key + last}, [], duplicate || key + last in keys);
    } else {
      var t := Inside(outer, keys, key + parts[0], duplicate);
      LeadsOne(s, KeyPart(parts[0]));
      assert Step(s, KeyPart(parts[0])) == t;
      KeyLeads(outer, keys, key + parts[0], duplicate, parts[1..], last);
      assert key + parts[0] + (Join(parts[1..]) + last) == key + (Join(parts) + last);
      LeadsAppend(s, [KeyPart(parts[0])], t, KeyStream(parts[1..], last), Run(t, KeyStream(parts[1..], last)));
    }
  }

  function KeyAt(d: Delivery, n: nat): Bytes
    requires d.Record? && n < |d.entries|
  {
    Join(d.entries[n].parts) + d.entries[n].last
  }

  function KeysBefore(d: Delivery, n: nat): set<Bytes>
    requires d.Record? && n <= |d.entries|
  {
    set i | 0 <= i < n :: KeyAt(d, i)
  }

  /** A duplicate shows from the n-th entry on. */
  ghost predicate EntriesRepeat(d: Delivery, n: nat)
    requires d.Record? && n <= |d.entries|
    decreases |d.entries| - n
  {
    n < |d.entries| &&
    (KeyAt(d, n) in KeysBefore(d, n) || HasDuplicate(Document(d.entries[n].content)) || EntriesRepeat(d, n + 1))
  }

  ghost predicate ItemsRepeat(d: Delivery, n: nat)
    requires d.List? && n <= |d.items|
    decreases |d.items| - n
  {
    n < |d.items| && (HasDuplicate(Document(d.items[n])) || ItemsRepeat(d, n + 1))
  }

  lemma {:induction false} EntriesRepeatIff(d: Delivery, n: nat)
    requires d.Record? && n <= |d.entries|
    ensures EntriesRepeat(d, n) <==>
      exists j :: n <= j < |d.entries| && (KeyAt(d, j) in KeysBefore(d, j) || HasDuplicate(Document(d.entries[j].content)))
    decreases |d.entries| - n
  {
    if n < |d.entries| {
      EntriesRepeatIff(d, n + 1);
    }
  }

  lemma {:induction false} ItemsRepeatIff(d: Delivery, n: nat)
    requires d.List? && n <= |d.items|
    ensures ItemsRepeat(d, n) <==> exists j :: n <= j < |d.items| && HasDuplicate(Document(d.items[j]))
    decreases |d.items| - n
  {
    if n < |d.items| {
      ItemsRepeatIff(d, n + 1);
    }
  }

  lemma RecordRepeats(d: Delivery)
    requires d.Record?
    ensures EntriesRepeat(d, 0) <==> HasDuplicate(Document(d))
  {
    EntriesRepeatIff(d, 0);
    var members := Document(d).members;
    assert forall i :: 0 <= i < |members| ==> members[i] == Member(KeyAt(d, i), Document(d.entries[i].content));
    if i, j :| 0 <= i < j < |members| && members[i].key == members[j].key {
      assert KeyAt(d, i) == KeyAt(d, j);
      assert KeyAt(d, j) in KeysBefore(d, j);
    }
  }

  lemma ListRepeats(d: Delivery)
    requires d.List?
    ensures ItemsRepeat(d, 0) <==> HasDuplicate(Document(d))
  {
    ItemsRepeatIff(d, 0);
    var items := Document(d).items;
    assert forall i :: 0 <= i < |items| ==> items[i] == Document(d.items[i]);
  }

  /** Over the stream of any document, the frames end as they began and `duplicate` records
      whether the document has a duplicate key. */
  lemma {:induction false} StreamLeads(s: State, d: Delivery)
    ensures Leads(s, Stream(d), s.(duplicate := s.duplicate || HasDuplicate(Document(d))))
    decreases d, 1, 0
  {
    match d
    case Leaf(_, pieces) => NoiseLeads(s, pieces);
    case List(items) =>
      var a := Inside(s.frames, {}, [], s.duplicate);
      var b := a.(duplicate := s.duplicate || ItemsRepeat(d, 0));
      LeadsOne(s, ArrayBegin);
      ItemsLead(a, d, 0);
      ListRepeats(d);
      Close(s, a, ArrayBegin, ItemsFrom(d, 0), b, ArrayEnd);
    case Record(entries) =>
      var a := Inside(s.frames, {}, [], s.duplicate);
      var b := Inside(s.frames, KeysBefore(d, |entries|), [], s.duplicate || EntriesRepeat(d, 0));
      LeadsOne(s, ObjectBegin);
      assert KeysBefore(d, 0) == {};
      EntriesLead(s.frames, s.duplicate, d, 0);
      RecordRepeats(d);
      Close(s, a, ObjectBegin, EntriesFrom(d, 0), b, ObjectEnd);
  }

  lemma Close(s: State, a: State, begin: Event, es: seq<Event>, b: State, end: Event)
    requires !NeedsFrame(begin) && Leads(s, [begin], a) && Leads(a, es, b)
    requires b.frames != [] && b.frames[..|b.frames| - 1] == s.frames && (end.ObjectEnd? || end.ArrayEnd?)
    ensures Leads(s, [begin] + es + [end], State(s.frames, b.duplicate))
  {
    LeadsAppend(s, [begin], a, es, b);
    LeadsOne(b, end);
    LeadsAppend(s, [begin] + es, b, [end], State(s.frames, b.duplicate));
  }

  lemma {:induction false} ItemsLead(s: State, d: Delivery, n: nat)
    requires d.List? && n <= |d.items|
    ensures Leads(s, ItemsFrom(d, n), s.(duplicate := s.duplicate || ItemsRepeat(d, n)))
    decreases d, 0, |d.items| - n
  {
    if n < |d.items| {
      StreamLeads(s, d.items[n]);
      var t := s.(duplicate := s.duplicate || HasDuplicate(Document(d.items[n])));
      ItemsLead(t, d, n + 1);
      LeadsAppend(s, Stream(d.items[n]), t, ItemsFrom(d, n + 1), t.(duplicate := t.duplicate || ItemsRepeat(d, n + 1)));
    }
  }

  lemma {:induction false} EntriesLead(outer: seq<Frame>, duplicate: bool, d: Delivery, n: nat)
    requires d.Record? && n <= |d.entries|
    ensures Leads(Inside(outer, KeysBefore(d, n), [], duplicate), EntriesFrom(d, n),
                  Inside(outer, KeysBefore(d, |d.entries|), [], duplicate || EntriesRepeat(d, n)))
    decreases d, 0, |d.entries| - n
  {
    if n < |d.entries| {
      var e := d.entries[n];
      var s := Inside(outer, KeysBefore(d, n), [], duplicate);
      KeyLeads(outer, KeysBefore(d, n), [], duplicate, e.parts, e.last);
      assert [] + KeyAt(d, n) == KeyAt(d, n);
      assert KeysBefore(d, n) + {KeyAt(d, n)} == KeysBefore(d, n + 1);
      var found := duplicate || KeyAt(d, n) in KeysBefore(d, n);
      var t := Inside(outer, KeysBefore(d, n + 1), [], found);
      StreamLeads(t, e.content);
      var repeated := found || HasDuplicate(Document(e.content));
      var u := Inside(outer, KeysBefore(d, n + 1), [], repeated);
      EntriesLead(outer, repeated, d, n + 1);
      LeadsAppend(s, KeyStream(e.parts, e.last), t, Stream(e.content), u);
      LeadsAppend(s, KeyStream(e.parts, e.last) + Stream(e.content), u, EntriesFrom(d, n + 1),
                  Inside(outer, KeysBefore(d, |d.entries|), [], repeated || EntriesRepeat(d, n + 1)));
    }
  }

  /** A complete parse with a fresh handler: it reports a duplicate exactly when there is one,
      and its stack is empty again. */
  method Validate(d: Delivery) returns (duplicate: bool)
    ensures duplicate <==> HasDuplicate(Document(d))
  {
    var handler := new DuplicateHandler();
    var events := Stream(d);
    ghost var start := State([], false);
    StreamLeads(start, d);
    for n := 0 to |events|
      invariant Leads(handler.View(), events[n..], Run(start, events))
    {
      assert events[n..][1..] == events[n + 1..];
      handler.Handle(events[n]);
    }
    assert events[|events|..] == [];
    assert handler.frames == [];
    duplicate := handler.duplicate;
  }
}
