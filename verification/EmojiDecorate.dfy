/**
 Replacing emoji matches inside a message body by splicing at a running offset
 (go/chat/emojisource.go:908-975, go/chat/utils/utils.go:2558-2569).
 */
module EmojiDecorate {

  /** A parsed match: its name and its position in the undecorated body. */
  datatype Match = Match(name: string, from: nat, to: nat)

  /** Where a harvested emoji comes from: a stock alias is replaced by its text, a message becomes an
      image decoration, and an unknown source cannot be resolved. */
  datatype Source = StockAlias(text: string) | Message(msg: nat) | Unknown

  datatype Emoji = Emoji(alias: string, source: Source)

  /** What a match is turned into. The error branch of json.Marshal is taken as given: no decoration of the source
      is known to make it fail. */
  datatype Replacement = Unchanged | Text(text: string) | Decoration(json: string) | MarshalError

  datatype Outcome = Ok(body: string) | Panic

  const DecorateBegin := "$>kb$"
  const DecorateEnd := "$<kb$"

  /** The first emoji harvested under an alias wins. */
  function FirstNamed(emojis: seq<Emoji>, name: string): (i: nat)
    ensures i <= |emojis|
    ensures i < |emojis| ==> emojis[i].alias == name
    ensures forall k :: 0 <= k < i ==> emojis[k].alias != name
  {
    if emojis == [] then 0 else if emojis[0].alias == name then 0 else 1 + FirstNamed(emojis[1..], name)
  }

  function Resolve(s: Source, marshal: nat -> Replacement): Replacement {
    match s
    case StockAlias(text) => Text(text)
    case Message(msg) => marshal(msg)
    case Unknown => Unchanged
  }

  function ReplacementFor(emojis: seq<Emoji>, m: Match, marshal: nat -> Replacement): Replacement {
    var i := FirstNamed(emojis, m.name);
    if i == |emojis| then Unchanged else Resolve(emojis[i].source, marshal)
  }

  /** A match becomes what the first emoji harvested under its name is: the text of a stock alias, the decoration of
      a message, or nothing new when the source is unknown or no emoji has the name. */
  lemma ReplacementIs(emojis: seq<Emoji>, m: Match, marshal: nat -> Replacement, i: nat)
    requires i < |emojis| && emojis[i].alias == m.name && forall k :: 0 <= k < i ==> emojis[k].alias != m.name
    ensures ReplacementFor(emojis, m, marshal) ==
      match emojis[i].source case StockAlias(text) => Text(text) case Message(msg) => marshal(msg) case Unknown => Unchanged
  {
    assert FirstNamed(emojis, m.name) == i;
  }

  lemma NoReplacement(emojis: seq<Emoji>, m: Match, marshal: nat -> Replacement)
    requires forall k :: 0 <= k < |emojis| ==> emojis[k].alias != m.name
    ensures ReplacementFor(emojis, m, marshal) == Unchanged
  {
    hide Resolve;
  }

  /** The text that stands for a match in the result; what cannot be replaced stays as it was. */
  function Piece(body: string, m: Match, r: Replacement): string
    requires m.from <= m.to <= |body|
  {
    match r
    case Unchanged | MarshalError => body[m.from..m.to]
    case Text(text) => text
    case Decoration(json) => DecorateBegin + json + DecorateEnd
  }

  /** Matches are non-empty, in order, and do not overlap. */
  ghost predicate Ascending(ms: seq<Match>, size: nat) {
    && (forall i :: 0 <= i < |ms| ==> ms[i].from < ms[i].to <= size)
    && (forall i :: 0 < i < |ms| ==> ms[i - 1].to <= ms[i].from)
  }

  function End(ms: seq<Match>, k: nat): nat
    requires k <= |ms|
  {
    if k == 0 then 0 else ms[k - 1].to
  }

  /** The original gaps and the pieces of the first k matches, in order. */
  function Assembled(body: string, ms: seq<Match>, rs: seq<Replacement>, k: nat): string
    requires Ascending(ms, |body|) && |rs| == |ms| && k <= |ms|
  {
    if k == 0 then ""
    else Assembled(body, ms, rs, k - 1) + body[End(ms, k - 1)..ms[k - 1].from] + Piece(body, ms[k - 1], rs[k - 1])
  }

  /** The whole body with every match replaced. */
  function Spliced(body: string, ms: seq<Match>, rs: seq<Replacement>): string
    requires Ascending(ms, |body|) && |rs| == |ms|
  {
    Assembled(body, ms, rs, |ms|) + body[End(ms, |ms|)..]
  }

  /** One turn of Decorate's loop on the current body and offset. */
  datatype Cursor = Cursor(body: string, offset: int) | Panicked

  function Replace(c: Cursor, m: Match, text: string): Cursor
    requires c.Cursor?
  {
    var start, length := m.from + c.offset, m.to - m.from;
    if 0 <= start <= start + length <= |c.body|
    then Cursor(c.body[..start] + text + c.body[start + length..], c.offset + |text| - length)
    else Panicked
  }

  function Turn(c: Cursor, m: Match, r: Replacement): Cursor {
    if c.Panicked? then Panicked
    else match r
      case Unchanged => c
      case Text(text) => Replace(c, m, text)
      case Decoration(json) => Replace(c, m, DecorateBegin + json + DecorateEnd)
      case MarshalError => Cursor("", c.offset)
  }

  function Loop(c: Cursor, ms: seq<Match>, rs: seq<Replacement>, k: nat): Cursor
    requires |rs| == |ms| && k <= |ms|
  {
    if k == 0 then c else Turn(Loop(c, ms, rs, k - 1), ms[k - 1], rs[k - 1])
  }

  /******* The running offset *******/

  ghost predicate NoMarshalError(rs: seq<Replacement>) {
    forall i :: 0 <= i < |rs| ==> !rs[i].MarshalError?
  }

  /** A replacement at a match beyond e lands right after the gap between e and the match. */
  lemma ReplaceLands(p: string, body: string, e: nat, m: Match, text: string)
    requires e <= m.from <= m.to <= |body|
    ensures Replace(Cursor(p + body[e..], |p| - e), m, text) ==
      var q := p + body[e..m.from] + text; Cursor(q + body[m.to..], |q| - m.to)
  {
    var cur, start, length := p + body[e..], m.from + |p| - e, m.to - m.from;
    assert cur[..start] == p + body[e..m.from];
    assert cur[start + length..] == body[m.to..];
  }

  lemma TurnLands(p: string, body: string, e: nat, m: Match, r: Replacement)
    requires e <= m.from <= m.to <= |body| && !r.MarshalError?
    ensures Turn(Cursor(p + body[e..], |p| - e), m, r) ==
      var q := p + body[e..m.from] + Piece(body, m, r); Cursor(q + body[m.to..], |q| - m.to)
  {
    ReplaceLands(p, body, e, m, Piece(body, m, r));
    if r.Unchanged? {
      assert p + body[e..] == p + body[e..m.from] + body[m.from..m.to] + body[m.to..];
    }
  }

  /** The assembled prefix followed by the untouched rest, and how far that rest has moved. */
  function Partial(body: string, ms: seq<Match>, rs: seq<Replacement>, k: nat): Cursor
    requires Ascending(ms, |body|) && |rs| == |ms| && k <= |ms|
  {
    var p := Assembled(body, ms, rs, k);
    Cursor(p + body[End(ms, k)..], |p| - End(ms, k))
  }

  lemma PartialStep(body: string, ms: seq<Match>, rs: seq<Replacement>, k: nat)
    requires Ascending(ms, |body|) && |rs| == |ms| && k < |ms| && !rs[k].MarshalError?
    ensures Turn(Partial(body, ms, rs, k), ms[k], rs[k]) == Partial(body, ms, rs, k + 1)
  {
    var p := Assembled(body, ms, rs, k);
    TurnLands(p, body, End(ms, k), ms[k], rs[k]);
    hide Turn, Piece;
    assert Assembled(body, ms, rs, k + 1) == p + body[End(ms, k)..ms[k].from] + Piece(body, ms[k], rs[k]);
  }

  lemma {:induction false} LoopSplices(body: string, ms: seq<Match>, rs: seq<Replacement>, k: nat)
    requires Ascending(ms, |body|) && |rs| == |ms| && k <= |ms| && NoMarshalError(rs)
    ensures Loop(Cursor(body, 0), ms, rs, k) == Partial(body, ms, rs, k)
  {
    hide Partial, Turn;
    if k == 0 {
      PartialStart(body, ms, rs);
    } else {
      LoopSplices(body, ms, rs, k - 1);
      PartialStep(body, ms, rs, k - 1);
    }
  }

  lemma PartialStart(body: string, ms: seq<Match>, rs: seq<Replacement>)
    requires Ascending(ms, |body|) && |rs| == |ms|
    ensures Partial(body, ms, rs, 0) == Cursor(body, 0)
  {
    assert "" + body[0..] == body;
  }

  /** A marshalling error empties the body: what follows is lost, and one more replacement panics. */
  lemma {:induction false} LoopLosesBody(body: string, ms: seq<Match>, rs: seq<Replacement>, k: nat, bad: nat)
    requires Ascending(ms, |body|) && |rs| == |ms| && bad < k <= |ms| && rs[bad].MarshalError?
    ensures var c := Loop(Cursor(body, 0), ms, rs, k); c.Panicked? || c.body == ""
    decreases k
  {
    if k > bad + 1 { LoopLosesBody(body, ms, rs, k - 1, bad); }
  }

  lemma SplicedNotEmpty(body: string, ms: seq<Match>, rs: seq<Replacement>, bad: nat, k: nat)
    requires Ascending(ms, |body|) && |rs| == |ms| && bad < k <= |ms| && rs[bad].MarshalError?
    ensures Assembled(body, ms, rs, k) != ""
  {
  }

  function Decorate(body: string, ms: seq<Match>, rs: seq<Replacement>): Outcome
    requires |rs| == |ms|
  {
    var c := Loop(Cursor(body, 0), ms, rs, |ms|);
    if c.Panicked? then Panic else Ok(c.body)
  }

  /** Splicing at a running offset puts every replacement in its own place, for every body and every
      list of matches, exactly when no decoration fails to marshal. */
  lemma DecorateSplicesIff(body: string, ms: seq<Match>, rs: seq<Replacement>)
    requires Ascending(ms, |body|) && |rs| == |ms|
    ensures Decorate(body, ms, rs) == Ok(Spliced(body, ms, rs)) <==> NoMarshalError(rs)
  {
    if NoMarshalError(rs) {
      LoopSplices(body, ms, rs, |ms|);
    } else {
      var bad :| 0 <= bad < |rs| && rs[bad].MarshalError?;
      LoopLosesBody(body, ms, rs, |ms|, bad);
      SplicedNotEmpty(body, ms, rs, bad, |ms|);
    }
  }

  /******* The method *******/

  /** The emoji map that Decorate builds keeps the first source seen for an alias. */
  method BuildEmojiMap(emojis: seq<Emoji>) returns (m: map<string, Source>)
    ensures forall name :: name in m <==> FirstNamed(emojis, name) < |emojis|
    ensures forall name :: name in m ==> m[name] == emojis[FirstNamed(emojis, name)].source
  {
    m := map[];
    for k := 0 to |emojis|
      invariant forall name :: name in m <==> FirstNamed(emojis, name) < k
      invariant forall name :: name in m ==> m[name] == emojis[FirstNamed(emojis, name)].source
    {
      if emojis[k].alias !in m { m := m[emojis[k].alias := emojis[k].source]; }
    }
  }

  method DecorateBody(body: string, emojis: seq<Emoji>, ms: seq<Match>, marshal: nat -> Replacement) returns (res: Outcome)
    ensures var rs := seq(|ms|, k requires 0 <= k < |ms| => ReplacementFor(emojis, ms[k], marshal)); res == Decorate(body, ms, rs)
  {
    ghost var rs := seq(|ms|, k requires 0 <= k < |ms| => ReplacementFor(emojis, ms[k], marshal));
    var emojiMap := BuildEmojiMap(emojis);
    var c := Cursor(body, 0);
    for k := 0 to |ms|
      invariant c == Loop(Cursor(body, 0), ms, rs, k) && c.Cursor?
    {
      if ms[k].name in emojiMap {
        c := Turn(c, ms[k], Resolve(emojiMap[ms[k].name], marshal));
        if c.Panicked? {
          PanicStays(Cursor(body, 0), ms, rs, k + 1, |ms|);
          return Panic;
        }
      }
    }
    res := Ok(c.body);
  }

  lemma {:induction false} PanicStays(c: Cursor, ms: seq<Match>, rs: seq<Replacement>, k: nat, n: nat)
    requires |rs| == |ms| && k <= n <= |ms| && Loop(c, ms, rs, k).Panicked?
    ensures Loop(c, ms, rs, n).Panicked?
    decreases n
  {
    if k < n { PanicStays(c, ms, rs, k, n - 1); }
  }

  /** One decoration between its markers. */
  lemma DecorationIsMarked()
    ensures var body, m := "a:x:b", Match("x", 1, 4); Ascending([m], |body|) && Decorate(body, [m], [Decoration("{}")]) == Ok("a$>kb${}$<kb$b")
  {
    var body, m := "a:x:b", Match("x", 1, 4);
    assert Loop(Cursor(body, 0), [m], [Decoration("{}")], 0) == Cursor(body, 0);
    assert body[..1] == "a" && body[4..] == "b";
    assert "a" + ("$>kb$" + "{}" + "$<kb$") + "b" == "a$>kb${}$<kb$b";
  }

  /** One decoration that fails to marshal, and the text around it is gone. */
  lemma MarshalErrorEmptiesBody()
    ensures var body, m := "hi :a: there", Match("a", 3, 6);
      Ascending([m], |body|) && Decorate(body, [m], [MarshalError]) == Ok("") && Spliced(body, [m], [MarshalError]) == body
  {
    var body, m := "hi :a: there", Match("a", 3, 6);
    assert Loop(Cursor(body, 0), [m], [MarshalError], 1) == Cursor("", 0);
    assert Assembled(body, [m], [MarshalError], 0) == "";
    assert body[0..3] + body[3..6] + body[6..] == body;
  }
}
