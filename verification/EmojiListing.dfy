/** getNoSet: listing the emojis of all conversations under distinct names (go/chat/emojisource.go:540-637). */
module EmojiListing {
  import opened Wrappers
  import opened EmojiAliases

  /** One entry of a conversation's stored mapping; `resolves` says its remote source can be loaded, `creation` is
      who made it and when, if that can be looked up. */
  datatype Stored = Stored(alias: string, isAlias: bool, resolves: bool, source: nat, creation: Option<nat>)

  /** A conversation with emojis; its mapping may be missing or unreadable, and is listed in any order. */
  datatype Conv = Conv(tlf: nat, team: string, mapping: Option<seq<Stored>>)

  datatype Opts = Opts(onlyInTeam: bool, getAliases: bool, getCreationInfo: bool)

  datatype Entry = Entry(stored: Stored, creation: Option<nat>, isCrossTeam: bool, team: string)

  datatype Emoji = Emoji(alias: string, entry: Entry)

  /******* Which emojis are listed, and in which order *******/

  predicate Listable(s: Stored, opts: Opts) {
    (opts.getAliases || !s.isAlias) && s.resolves
  }

  function EntryOf(s: Stored, c: Conv, cross: bool, opts: Opts): Entry {
    Entry(s, if opts.getCreationInfo then s.creation else None, cross, c.team)
  }

  function FromMapping(mapping: seq<Stored>, c: Conv, cross: bool, opts: Opts): seq<Entry> {
    if mapping == [] then []
    else
      var s := mapping[|mapping| - 1];
      FromMapping(mapping[..|mapping| - 1], c, cross, opts) + if Listable(s, opts) then [EntryOf(s, c, cross, opts)] else []
  }

  function FromConvs(convs: seq<Conv>, cross: bool, opts: Opts): seq<Entry> {
    if convs == [] then []
    else
      var c := convs[|convs| - 1];
      FromConvs(convs[..|convs| - 1], cross, opts) + if c.mapping.Some? then FromMapping(c.mapping.value, c, cross, opts) else []
  }

  function InTeam(convs: seq<Conv>, source: Option<nat>, same: bool): seq<Conv> {
    if convs == [] then []
    else
      var c := convs[|convs| - 1];
      InTeam(convs[..|convs| - 1], source, same) + if (source == Some(c.tlf)) == same then [c] else []
  }

  /** The emojis of the conversation's own team first, then the others unless they are not wanted. */
  function Entries(convs: seq<Conv>, source: Option<nat>, opts: Opts): seq<Entry> {
    FromConvs(InTeam(convs, source, true), false, opts) +
    if opts.onlyInTeam && source.Some? then [] else FromConvs(InTeam(convs, source, false), source.Some?, opts)
  }

  /** One listed emoji, seen from the conversation and the stored entry it comes from. */
  predicate ComesFrom(e: Entry, c: Conv, s: Stored, source: Option<nat>, opts: Opts) {
    && c.mapping.Some? && s in c.mapping.value && s.resolves && (s.isAlias ==> opts.getAliases)
    && e.stored == s && e.team == c.team && e.creation == (if opts.getCreationInfo then s.creation else None)
    && e.isCrossTeam == (source.Some? && source != Some(c.tlf))
    && !(e.isCrossTeam && opts.onlyInTeam)
  }

  lemma {:induction false} MappingLists(mapping: seq<Stored>, c: Conv, cross: bool, opts: Opts, e: Entry)
    ensures e in FromMapping(mapping, c, cross, opts) <==>
      && e.stored in mapping && e.stored.resolves && (e.stored.isAlias ==> opts.getAliases)
      && e.creation == (if opts.getCreationInfo then e.stored.creation else None) && e.isCrossTeam == cross && e.team == c.team
  {
    if mapping != [] {
      MappingLists(mapping[..|mapping| - 1], c, cross, opts, e);
      assert mapping == mapping[..|mapping| - 1] + [mapping[|mapping| - 1]];
    }
  }

  lemma {:induction false} ConvsList(convs: seq<Conv>, cross: bool, opts: Opts, e: Entry)
    ensures e in FromConvs(convs, cross, opts) <==>
      exists c :: c in convs && c.mapping.Some? && e in FromMapping(c.mapping.value, c, cross, opts)
  {
    if convs != [] {
      var front, last := convs[..|convs| - 1], convs[|convs| - 1];
      ConvsList(front, cross, opts, e);
      assert convs == front + [last];
      hide FromMapping;
      if e in FromConvs(convs, cross, opts) && e !in FromConvs(front, cross, opts) { assert last in convs; }
      if c :| c in convs && c.mapping.Some? && e in FromMapping(c.mapping.value, c, cross, opts) { assert c in front || c == last; }
    }
  }

  lemma {:induction false} InTeamAre(convs: seq<Conv>, source: Option<nat>, same: bool, c: Conv)
    ensures c in InTeam(convs, source, same) <==> c in convs && ((source == Some(c.tlf)) == same)
  {
    if convs != [] {
      InTeamAre(convs[..|convs| - 1], source, same, c);
      assert convs == convs[..|convs| - 1] + [convs[|convs| - 1]];
    }
  }

  /** What is listed: exactly the resolvable entries of the readable mappings, aliases and other teams only if wanted. */
  lemma EntriesAre(convs: seq<Conv>, source: Option<nat>, opts: Opts, e: Entry)
    ensures e in Entries(convs, source, opts) <==> exists c :: c in convs && ComesFrom(e, c, e.stored, source, opts)
  {
    hide FromConvs, InTeam, FromMapping;
    ConvsList(InTeam(convs, source, true), false, opts, e);
    ConvsList(InTeam(convs, source, false), source.Some?, opts, e);
    forall c: Conv ensures c in InTeam(convs, source, true) <==> c in convs && source == Some(c.tlf) { InTeamAre(convs, source, true, c); }
    forall c: Conv ensures c in InTeam(convs, source, false) <==> c in convs && source != Some(c.tlf) { InTeamAre(convs, source, false, c); }
    forall c: Conv, cross | c.mapping.Some? ensures e in FromMapping(c.mapping.value, c, cross, opts) <==>
      && e.stored in c.mapping.value && e.stored.resolves && (e.stored.isAlias ==> opts.getAliases)
      && e.creation == (if opts.getCreationInfo then e.stored.creation else None) && e.isCrossTeam == cross && e.team == c.team
    { MappingLists(c.mapping.value, c, cross, opts, e); }
  }

  /** Emojis of the own team come before those of others. */
  lemma OwnTeamFirst(convs: seq<Conv>, source: Option<nat>, opts: Opts, i: nat, j: nat)
    requires i < |Entries(convs, source, opts)| && j < |Entries(convs, source, opts)|
    requires Entries(convs, source, opts)[i].isCrossTeam && !Entries(convs, source, opts)[j].isCrossTeam
    ensures j < i
  {
    hide InTeam, FromConvs;
    var es, own := Entries(convs, source, opts), FromConvs(InTeam(convs, source, true), false, opts);
    if i < |own| { assert es[i] == own[i] && own[i] in own; CrossIs(InTeam(convs, source, true), false, opts, own[i]); }
    if j >= |own| {
      var others := FromConvs(InTeam(convs, source, false), source.Some?, opts);
      assert es[j] == others[j - |own|] && es[j] in others;
      CrossIs(InTeam(convs, source, false), source.Some?, opts, es[j]);
      if i >= |own| { assert es[i] == others[i - |own|] && es[i] in others; CrossIs(InTeam(convs, source, false), source.Some?, opts, es[i]); }
    }
  }

  lemma CrossIs(convs: seq<Conv>, cross: bool, opts: Opts, e: Entry)
    requires e in FromConvs(convs, cross, opts)
    ensures e.isCrossTeam == cross
  {
    hide FromConvs, FromMapping;
    ConvsList(convs, cross, opts, e);
    var c :| c in convs && c.mapping.Some? && e in FromMapping(c.mapping.value, c, cross, opts);
    MappingLists(c.mapping.value, c, cross, opts, e);
  }

  function Aliases(es: seq<Entry>): (r: seq<string>)
    ensures |r| == |es| && forall i :: 0 <= i < |es| ==> r[i] == es[i].stored.alias
  {
    if es == [] then [] else Aliases(es[..|es| - 1]) + [es[|es| - 1].stored.alias]
  }

  /******* The tables that getNoSet fills *******/

  datatype Tables = Tables(emojis: seq<Emoji>, seen: map<string, nat>, lookup: map<string, Emoji>)

  ghost predicate Listed(emojis: seq<Emoji>, aliases: seq<string>, es: seq<Entry>)
    requires |aliases| == |es|
  {
    |emojis| == |es| && forall k :: 0 <= k < |es| ==> emojis[k] == Emoji(NameAt(aliases, k), es[k])
  }

  ghost predicate Counted(seen: map<string, nat>, aliases: seq<string>) {
    forall a :: if a in seen then seen[a] == Count(aliases, a) + 1 && seen[a] > 1 else Count(aliases, a) == 0
  }

  ghost predicate Indexed(lookup: map<string, Emoji>, emojis: seq<Emoji>) {
    && (forall n :: n in lookup ==> lookup[n] in emojis && lookup[n].alias == n)
    && (forall e :: e in emojis ==> e.alias in lookup)
  }

  ghost predicate Filled(t: Tables, es: seq<Entry>) {
    Listed(t.emojis, Aliases(es), es) && Counted(t.seen, Aliases(es)) && Indexed(t.lookup, t.emojis)
  }

  function AddOne(t: Tables, e: Entry): Tables {
    var a := e.stored.alias;
    var emoji := Emoji(if a in t.seen then a + "#" + Decimal(t.seen[a]) else a, e);
    Tables(t.emojis + [emoji], if a in t.seen then t.seen[a := t.seen[a] + 1] else t.seen[a := 2], t.lookup[emoji.alias := emoji])
  }

  lemma NamePrefix(aliases: seq<string>, a: string, k: nat)
    requires k < |aliases|
    ensures NameAt(aliases + [a], k) == NameAt(aliases, k)
  {
    assert (aliases + [a])[..k] == aliases[..k];
  }

  lemma CountNext(aliases: seq<string>, a: string, b: string)
    ensures Count(aliases + [a], b) == Count(aliases, b) + if a == b then 1 else 0
  {
    assert (aliases + [a])[..|aliases|] == aliases;
  }

  lemma AliasesNext(es: seq<Entry>, e: Entry)
    ensures Aliases(es + [e]) == Aliases(es) + [e.stored.alias]
  {
    assert (es + [e])[..|es|] == es;
  }

  lemma CountedNext(seen: map<string, nat>, aliases: seq<string>, a: string)
    requires Counted(seen, aliases)
    ensures Counted(if a in seen then seen[a := seen[a] + 1] else seen[a := 2], aliases + [a])
  {
    hide Count;
    forall b ensures Count(aliases + [a], b) == Count(aliases, b) + if a == b then 1 else 0 { CountNext(aliases, a, b); }
  }

  lemma ListedNext(emojis: seq<Emoji>, aliases: seq<string>, es: seq<Entry>, e: Entry)
    requires |aliases| == |es| && Listed(emojis, aliases, es)
    ensures var as' := aliases + [e.stored.alias];
      Listed(emojis + [Emoji(NameAt(as', |es|), e)], as', es + [e])
  {
    hide NameAt;
    forall k: nat | k < |es| ensures NameAt(aliases + [e.stored.alias], k) == NameAt(aliases, k) {
      NamePrefix(aliases, e.stored.alias, k);
    }
  }

  lemma NextName(seen: map<string, nat>, aliases: seq<string>, a: string)
    requires Counted(seen, aliases)
    ensures NameAt(aliases + [a], |aliases|) == if a in seen then a + "#" + Decimal(seen[a]) else a
  {
    hide Count, Decimal;
    assert (aliases + [a])[..|aliases|] == aliases;
  }

  lemma IndexedNext(lookup: map<string, Emoji>, emojis: seq<Emoji>, e: Emoji)
    requires Indexed(lookup, emojis)
    ensures Indexed(lookup[e.alias := e], emojis + [e])
  {
  }

  lemma AddOneFills(t: Tables, es: seq<Entry>, e: Entry)
    requires Filled(t, es)
    ensures Filled(AddOne(t, e), es + [e])
  {
    hide Listed, Count, Aliases, Decimal, Counted, Indexed, NameAt;
    var as_, a, emojis := Aliases(es), e.stored.alias, AddOne(t, e).emojis;
    AliasesNext(es, e);
    CountedNext(t.seen, as_, a);
    NextName(t.seen, as_, a);
    IndexedNext(t.lookup, t.emojis, emojis[|t.emojis|]);
    ListedNext(t.emojis, as_, es, e);
  }

  lemma AddOneAppends(t: Tables, e: Entry)
    ensures t.emojis <= AddOne(t, e).emojis
  {
  }

  method AddMapping(mapping: seq<Stored>, c: Conv, cross: bool, opts: Opts, t0: Tables, ghost es: seq<Entry>) returns (t: Tables)
    requires Filled(t0, es)
    ensures Filled(t, es + FromMapping(mapping, c, cross, opts)) && t0.emojis <= t.emojis
  {
    hide Filled, AddOne;
    t := t0;
    assert es + [] == es;
    for k := 0 to |mapping|
      invariant Filled(t, es + FromMapping(mapping[..k], c, cross, opts)) && t0.emojis <= t.emojis
    {
      assert mapping[..k + 1][..k] == mapping[..k];
      var s := mapping[k];
      assert !Listable(s, opts) ==> FromMapping(mapping[..k + 1], c, cross, opts) == FromMapping(mapping[..k], c, cross, opts);
      if !opts.getAliases && s.isAlias { continue; }
      if !s.resolves { continue; }
      var creation := None;
      if opts.getCreationInfo { creation := s.creation; }
      var e := Entry(s, creation, cross, c.team);
      ghost var before := es + FromMapping(mapping[..k], c, cross, opts);
      AddOneFills(t, before, e);
      AddOneAppends(t, e);
      assert before + [e] == es + FromMapping(mapping[..k + 1], c, cross, opts);
      t := AddOne(t, e);
    }
    assert mapping[..|mapping|] == mapping;
  }

  /** The emojis of one conversation, under its team's name. */
  datatype Group = Group(name: string, emojis: seq<Emoji>)

  function Flat(gs: seq<Group>): seq<Emoji> {
    if gs == [] then [] else Flat(gs[..|gs| - 1]) + gs[|gs| - 1].emojis
  }

  function Names(gs: seq<Group>): seq<string> {
    if gs == [] then [] else Names(gs[..|gs| - 1]) + [gs[|gs| - 1].name]
  }

  /** The teams of the conversations whose mapping could be read. */
  function Teams(convs: seq<Conv>): seq<string> {
    if convs == [] then []
    else
      var c := convs[|convs| - 1];
      Teams(convs[..|convs| - 1]) + if c.mapping.Some? then [c.team] else []
  }

  /** A group for every readable conversation. */
  lemma {:induction false} TeamsAre(convs: seq<Conv>, team: string)
    ensures team in Teams(convs) <==> exists c :: c in convs && c.mapping.Some? && c.team == team
  {
    if convs != [] {
      var front, last := convs[..|convs| - 1], convs[|convs| - 1];
      TeamsAre(front, team);
      assert convs == front + [last];
      if team in Teams(convs) && team !in Teams(front) { assert last in convs; }
      if c :| c in convs && c.mapping.Some? && c.team == team { assert c in front || c == last; }
    }
  }

  lemma GroupNext(gs: seq<Group>, g: Group)
    ensures Flat(gs + [g]) == Flat(gs) + g.emojis && Names(gs + [g]) == Names(gs) + [g.name]
  {
    assert (gs + [g])[..|gs|] == gs;
  }

  method AddEmojis(convs: seq<Conv>, cross: bool, opts: Opts, t0: Tables, gs0: seq<Group>, ghost es: seq<Entry>)
    returns (t: Tables, gs: seq<Group>)
    requires Filled(t0, es) && Flat(gs0) == t0.emojis
    ensures Filled(t, es + if opts.onlyInTeam && cross then [] else FromConvs(convs, cross, opts))
    ensures Flat(gs) == t.emojis && Names(gs) == Names(gs0) + if opts.onlyInTeam && cross then [] else Teams(convs)
  {
    hide Filled, FromMapping, Flat, Names;
    t, gs := t0, gs0;
    assert es + [] == es && Names(gs0) + [] == Names(gs0);
    if opts.onlyInTeam && cross { return; }
    for k := 0 to |convs|
      invariant Filled(t, es + FromConvs(convs[..k], cross, opts))
      invariant Flat(gs) == t.emojis && Names(gs) == Names(gs0) + Teams(convs[..k])
    {
      assert convs[..k + 1][..k] == convs[..k];
      ghost var before := es + FromConvs(convs[..k], cross, opts);
      if convs[k].mapping.None? {
        assert FromConvs(convs[..k + 1], cross, opts) == FromConvs(convs[..k], cross, opts);
        assert Teams(convs[..k + 1]) == Teams(convs[..k]);
        continue;
      }
      var n := |t.emojis|;
      t := AddMapping(convs[k].mapping.value, convs[k], cross, opts, t, before);
      assert before + FromMapping(convs[k].mapping.value, convs[k], cross, opts) == es + FromConvs(convs[..k + 1], cross, opts);
      var g := Group(convs[k].team, t.emojis[n..]);
      GroupNext(gs, g);
      assert t.emojis == t.emojis[..n] + t.emojis[n..];
      assert Names(gs0) + Teams(convs[..k]) + [convs[k].team] == Names(gs0) + Teams(convs[..k + 1]);
      gs := gs + [g];
    }
    assert convs[..|convs|] == convs;
  }

  /** The listing, the lookup table, and the emojis grouped by conversation, own team first. */
  method GetNoSet(convs: seq<Conv>, source: Option<nat>, opts: Opts) returns (t: Tables, groups: seq<Group>)
    ensures Filled(t, Entries(convs, source, opts))
    ensures Flat(groups) == t.emojis
    ensures Names(groups) == Teams(InTeam(convs, source, true)) +
      if opts.onlyInTeam && source.Some? then [] else Teams(InTeam(convs, source, false))
  {
    var tlfConvs, otherConvs := [], [];
    for k := 0 to |convs|
      invariant tlfConvs == InTeam(convs[..k], source, true) && otherConvs == InTeam(convs[..k], source, false)
    {
      assert convs[..k + 1][..k] == convs[..k];
      if source == Some(convs[k].tlf) { tlfConvs := tlfConvs + [convs[k]]; } else { otherConvs := otherConvs + [convs[k]]; }
    }
    assert convs[..|convs|] == convs;
    t, groups := Tables([], map[], map[]), [];
    assert Names([]) + Teams(tlfConvs) == Teams(tlfConvs);
    t, groups := AddEmojis(tlfConvs, false, opts, t, groups, []);
    assert [] + FromConvs(tlfConvs, false, opts) == FromConvs(tlfConvs, false, opts);
    t, groups := AddEmojis(otherConvs, source.Some?, opts, t, groups, FromConvs(tlfConvs, false, opts));
  }

  lemma NamesDiffer(aliases: seq<string>, i: nat, j: nat)
    requires NoHash(aliases) && i < |aliases| && j < |aliases| && i != j
    ensures NameAt(aliases, i) != NameAt(aliases, j)
  {
    NamesDistinct(aliases, if i < j then i else j, if i < j then j else i);
  }

  /** No two listed emojis share a name, and stripping a name gives back the stored alias, for every
      set of conversations whose stored aliases contain no '#'. */
  lemma ListedNames(t: Tables, es: seq<Entry>, i: nat)
    requires Filled(t, es) && NoHash(Aliases(es)) && i < |es|
    ensures Strip(t.emojis[i].alias) == es[i].stored.alias
    ensures forall j: nat :: j < |es| && j != i ==> t.emojis[j].alias != t.emojis[i].alias
  {
    hide NameAt, Count, Strip, NoHash, Aliases;
    StripName(Aliases(es), i);
    forall j: nat | j < |es| && j != i ensures NameAt(Aliases(es), j) != NameAt(Aliases(es), i) {
      NamesDiffer(Aliases(es), i, j);
    }
  }

  lemma IndexedUnique(lookup: map<string, Emoji>, emojis: seq<Emoji>, i: nat)
    requires Indexed(lookup, emojis) && i < |emojis|
    requires forall j: nat :: j < |emojis| && j != i ==> emojis[j].alias != emojis[i].alias
    ensures emojis[i].alias in lookup && lookup[emojis[i].alias] == emojis[i]
  {
  }

  /** So no listed emoji is overwritten in the lookup table. */
  lemma LookupIsComplete(t: Tables, es: seq<Entry>, i: nat)
    requires Filled(t, es) && NoHash(Aliases(es)) && i < |es|
    ensures t.emojis[i].alias in t.lookup && t.lookup[t.emojis[i].alias] == t.emojis[i]
  {
    hide NameAt, Count, Strip, NoHash, Aliases, Counted, Indexed;
    ListedNames(t, es, i);
    IndexedUnique(t.lookup, t.emojis, i);
  }
}
