/** Workstream identity above source threads (internal/flowdb/attention.go): many thread keys
    alias one workstream, and a merge repoints keys without losing any. */
module Workstreams {
  import opened Text

  /** attentionWorkstreamID. The hash of the canonical key is taken as collision-free, so the id is
      the key it hashes. The tables are generic in the key, which only needs equality. */
  datatype Id<K> = Aws(hashedKey: K)

  datatype Workstream<K> = Workstream(source: string, channel: string, channelType: string, canonicalKey: K,
                                      feedItem: string, owner: Option<string>, summary: string, status: string,
                                      createdAt: int, updatedAt: int)

  datatype Alias<K> = Alias(target: Id<K>, feedItem: string, source: string, channel: string, createdAt: int,
      updatedAt: int)

  /** The two tables. */
  datatype Tables<K(==)> = Tables(streams: map<Id<K>, Workstream<K>>, aliases: map<K, Alias<K>>)

  datatype Item = Item(id: string, thread: string, source: string, channel: string, channelType: string,
                       matchedTask: string, linkedTask: string, summary: string)

  /** One ensure, its keys trimmed and its owner chosen. */
  datatype Call<K> = Call(canonical: K, raw: K, item: Item, owner: Option<string>, at: int)

  /** The join of an alias with its workstream. */
  function Lookup<K(==)>(t: Tables<K>, key: K): (r: Option<Id<K>>)
    ensures r.Some? ==> r.value in t.streams && key in t.aliases && t.aliases[key].target == r.value
  {
    if key in t.aliases && t.aliases[key].target in t.streams then Some(t.aliases[key].target) else None
  }

  /** The workstream either key already resolves to, the canonical key first. */
  function Found<K(==)>(t: Tables<K>, c: Call<K>): (r: Option<Id<K>>)
    ensures r.Some? ==> r.value in t.streams
  {
    if Lookup(t, c.canonical).Some? then Lookup(t, c.canonical) else Lookup(t, c.raw)
  }

  /** The workstream an ensure settles on: a found one, or a new one named after the canonical key. */
  function Target<K(==)>(t: Tables<K>, c: Call<K>): Id<K> {
    match Found(t, c)
    case Some(id) => id
    case None => Aws(c.canonical)
  }

  /** COALESCE. */
  function OrElse(a: Option<string>, b: Option<string>): Option<string> {
    if a.Some? then a else b
  }

  /** INSERT ... ON CONFLICT(id): an existing row keeps its creation time, and its owner when none is given. */
  function PutStream<K(==)>(streams: map<Id<K>, Workstream<K>>, id: Id<K>, ws: Workstream<K>): map<Id<K>,
      Workstream<K>> {
    if id in streams
    then streams[id := ws.(createdAt := streams[id].createdAt, owner := OrElse(ws.owner, streams[id].owner))]
    else streams[id := ws]
  }

  function PutAlias<K(==)>(aliases: map<K, Alias<K>>, key: K, a: Alias<K>): map<K, Alias<K>> {
    if key in aliases then aliases[key := a.(createdAt := aliases[key].createdAt)] else aliases[key := a]
  }

  /** The row an ensure writes over the found one, if any. */
  function StreamFor<K>(existing: Option<Workstream<K>>, c: Call<K>): Workstream<K> {
    Workstream(c.item.source, c.item.channel, c.item.channelType, c.canonical, c.item.id,
               if existing.Some? then OrElse(c.owner, existing.value.owner) else c.owner,
               c.item.summary, "open",
               if existing.Some? then existing.value.createdAt else c.at, c.at)
  }

  function StreamsPut<K(==)>(t: Tables<K>, c: Call<K>, found: Option<Id<K>>): map<Id<K>, Workstream<K>>
    requires found.Some? ==> found.value in t.streams
  {
    match found
    case Some(id) => PutStream(t.streams, id, StreamFor(Some(t.streams[id]), c))
    case None => PutStream(t.streams, Aws(c.canonical), StreamFor(None, c))
  }

  function AliasesPut<K(==)>(aliases: map<K, Alias<K>>, c: Call<K>, id: Id<K>): map<K, Alias<K>> {
    var a := Alias(id, c.item.id, c.item.source, c.item.channel, c.at, c.at);
    PutAlias(PutAlias(aliases, c.canonical, a), c.raw, a)
  }

  function Ensured<K(==)>(t: Tables<K>, c: Call<K>): Tables<K> {
    Tables(StreamsPut(t, c, Found(t, c)), AliasesPut(t.aliases, c, Target(t, c)))
  }

  class Store {
    var tables: Tables<string>

    /** EnsureAttentionWorkstreamForFeed; None when the item has no thread key. */
    method EnsureForFeed(item: Item, rawThreadKey: string, at: int) returns (r: Option<Id<string>>)
      modifies this
      ensures var c := CallFor(item, rawThreadKey, at);
        if c.canonical == "" then r == None && tables == old(tables)
        else r == Some(Target(old(tables), c)) && tables == Ensured(old(tables), c)
      ensures TrimSpace(item.thread) == "" ==> r == None && tables == old(tables)
      ensures TrimSpace(item.thread) != "" && Inv(old(tables)) ==>
        && r.Some? && Inv(tables)
        && KeysFiled(old(tables), tables, TrimSpace(item.thread), TrimSpace(rawThreadKey), r.value)
        && ItemFiled(old(tables), tables, item, at, r.value)
    {
      var canonical := TrimSpace(item.thread);
      if canonical == "" {
        return None;
      }
      var raw := TrimSpace(rawThreadKey);
      if raw == "" {
        raw := canonical;
      }
      if Inv(tables) {
        CallFilesKeys(tables, item, rawThreadKey, at);
        CallFilesItem(tables, item, rawThreadKey, at);
      }
      r := Ensure(Call(canonical, raw, item, FirstNonEmpty(item.matchedTask, item.linkedTask), at));
    }

    method Ensure(c: Call<string>) returns (r: Option<Id<string>>)
      modifies this
      ensures r == Some(Target(old(tables), c)) && tables == Ensured(old(tables), c)
    {
      var found := Lookup(tables, c.canonical);
      if found.None? {
        found := Lookup(tables, c.raw);
      }
      var id := if found.Some? then found.value else Aws(c.canonical);
      var ws := if found.Some? then tables.streams[id]
                else Workstream("", "", "", c.canonical, "", None, "", "", c.at, c.at);
      ws := ws.(source := c.item.source, channel := c.item.channel, channelType := c.item.channelType,
                canonicalKey := c.canonical, feedItem := c.item.id);
      if c.owner.Some? {
        ws := ws.(owner := c.owner);
      }
      ws := ws.(summary := c.item.summary, status := "open", updatedAt := c.at);
      tables := tables.(streams := PutStream(tables.streams, id, ws));
      var alias := Alias(id, c.item.id, c.item.source, c.item.channel, c.at, c.at);
      tables := tables.(aliases := PutAlias(tables.aliases, c.canonical, alias));
      tables := tables.(aliases := PutAlias(tables.aliases, c.raw, alias));
      r := Some(id);
    }
  }

  function FirstNonEmpty(a: string, b: string): Option<string> {
    if TrimSpace(a) != "" then Some(TrimSpace(a))
    else if TrimSpace(b) != "" then Some(TrimSpace(b))
    else None
  }

  function CallFor(item: Item, rawThreadKey: string, at: int): Call<string> {
    var canonical := TrimSpace(item.thread);
    var raw := if TrimSpace(rawThreadKey) == "" then canonical else TrimSpace(rawThreadKey);
    Call(canonical, raw, item, FirstNonEmpty(item.matchedTask, item.linkedTask), at)
  }

  // ---- runs ----

  function Run<K(==)>(calls: seq<Call<K>>): Tables<K> {
    if calls == [] then Tables(map[], map[]) else Ensured(Run(calls[..|calls| - 1]), calls[|calls| - 1])
  }

  /** Each alias targets an existing workstream, and the key an id was minted from is still an alias. */
  ghost predicate Inv<K(!new)>(t: Tables<K>) {
    && (forall k {:trigger t.aliases[k]} :: k in t.aliases ==> t.aliases[k].target in t.streams)
    && (forall id {:trigger Minted(t, id)} :: id in t.streams ==> Minted(t, id))
  }

  predicate Minted<K(==)>(t: Tables<K>, id: Id<K>) {
    id.hashedKey in t.aliases
  }

  /** The chosen workstream is new exactly when neither key resolves, so minting never overwrites one. */
  lemma MintingNeverOverwrites<K(!new)>(t: Tables<K>, c: Call<K>)
    requires Inv(t)
    ensures Lookup(t, c.canonical).None? && Lookup(t, c.raw).None? <==> Target(t, c) !in t.streams
  {
    assert Aws(c.canonical) in t.streams ==> Minted(t, Aws(c.canonical));
    if c.canonical in t.aliases {
      assert t.aliases[c.canonical].target in t.streams;
    }
  }

  lemma AliasesAfter<K>(aliases: map<K, Alias<K>>, c: Call<K>, id: Id<K>)
    ensures var after := AliasesPut(aliases, c, id);
      && after.Keys == aliases.Keys + {c.canonical, c.raw}
      && (forall k :: k == c.canonical || k == c.raw ==>
            after[k] == Alias(id, c.item.id, c.item.source, c.item.channel,
                              if k in aliases then aliases[k].createdAt else c.at, c.at))
      && (forall k :: k in aliases && k != c.canonical && k != c.raw ==> after[k] == aliases[k])
  {
  }

  predicate Shows<K(==)>(ws: Workstream<K>, c: Call<K>, before: Option<Workstream<K>>) {
    && ws.canonicalKey == c.canonical && ws.feedItem == c.item.id
    && ws.source == c.item.source && ws.channel == c.item.channel && ws.channelType == c.item.channelType
    && ws.summary == c.item.summary && ws.status == "open"
    && ws.owner == (if c.owner.Some? || before.None? then c.owner else before.value.owner)
    && ws.createdAt == (if before.Some? then before.value.createdAt else c.at) && ws.updatedAt == c.at
  }

  lemma StreamsAfterPut<K>(t: Tables<K>, c: Call<K>, found: Option<Id<K>>)
    requires if found.Some? then found.value in t.streams else Aws(c.canonical) !in t.streams
    ensures var (after, id) := (StreamsPut(t, c, found), if found.Some? then found.value else Aws(c.canonical));
      && after.Keys == t.streams.Keys + {id}
      && (forall j :: j in t.streams && j != id ==> after[j] == t.streams[j])
      && Shows(after[id], c, if id in t.streams then Some(t.streams[id]) else None)
  {
  }

  /** The chosen row shows the call; its owner is never cleared and replaced only by a given one;
      every other row is as it was. */
  lemma StreamsAfter<K(!new)>(t: Tables<K>, c: Call<K>, id: Id<K>)
    requires Inv(t) && id == Target(t, c)
    ensures var after := Ensured(t, c).streams;
      && after.Keys == t.streams.Keys + {id}
      && (forall j :: j in t.streams && j != id ==> after[j] == t.streams[j])
      && Shows(after[id], c, if id in t.streams then Some(t.streams[id]) else None)
  {
    MintingNeverOverwrites(t, c);
    StreamsAfterPut(t, c, Found(t, c));
  }

  /** after is t with keys a and b repointed to id. */
  ghost predicate Repointed<K(!new)>(t: Tables<K>, after: Tables<K>, a: K, b: K, id: Id<K>) {
    && after.streams.Keys == t.streams.Keys + {id}
    && after.aliases.Keys == t.aliases.Keys + {a, b}
    && after.aliases[a].target == id && after.aliases[b].target == id
    && (forall k {:trigger after.aliases[k]} :: k in t.aliases && k != a && k != b ==> after.aliases[k] == t.aliases[k])
  }

  lemma RepointedKeepsInv<K(!new)>(t: Tables<K>, after: Tables<K>, a: K, b: K, id: Id<K>)
    requires Inv(t) && (id in t.streams || id == Aws(a)) && Repointed(t, after, a, b, id)
    ensures Inv(after)
  {
    forall k | k in after.aliases ensures after.aliases[k].target in after.streams {
      if k != a && k != b {
        assert after.aliases[k].target in t.streams;
      }
    }
    forall j | j in after.streams ensures Minted(after, j) {
      assert j in t.streams ==> Minted(t, j);
    }
  }

  lemma RepointedLookup<K(!new)>(t: Tables<K>, after: Tables<K>, a: K, b: K, id: Id<K>, k: K)
    requires Inv(t) && Repointed(t, after, a, b, id)
    ensures Lookup(after, k) == if k == a || k == b then Some(id) else Lookup(t, k)
  {
    if k in t.aliases && k != a && k != b {
      assert after.aliases[k] == t.aliases[k];
    }
  }

  /** Each ensure leaves both its keys resolving to one workstream and every other key as it was. */
  lemma EnsureEffect<K(!new)>(t: Tables<K>, c: Call<K>)
    requires Inv(t)
    ensures Inv(Ensured(t, c))
    ensures forall k ::
      Lookup(Ensured(t, c), k) == if k == c.canonical || k == c.raw then Some(Target(t, c)) else Lookup(t, k)
    ensures t.aliases.Keys <= Ensured(t, c).aliases.Keys
  {
    AliasesAfter(t.aliases, c, Target(t, c));
    StreamsAfter(t, c, Target(t, c));
    RepointedKeepsInv(t, Ensured(t, c), c.canonical, c.raw, Target(t, c));
    forall k {
      RepointedLookup(t, Ensured(t, c), c.canonical, c.raw, Target(t, c), k);
    }
  }

  lemma {:induction false} RunKeepsInv<K(!new)>(calls: seq<Call<K>>)
    ensures Inv(Run(calls))
  {
    if calls != [] {
      RunKeepsInv(calls[..|calls| - 1]);
      EnsureEffect(Run(calls[..|calls| - 1]), calls[|calls| - 1]);
    }
  }

  /** What an ensure does with the thread keys it is given: the item's thread, and the raw key if any,
      resolve to one workstream from then on and every other key as before. That is the workstream of the
      thread, else of the raw key, else a new one. */
  ghost predicate KeysFiled(before: Tables<string>, after: Tables<string>, thread: string, raw: string,
      id: Id<string>) {
    var known := if Lookup(before, thread).Some? then Lookup(before, thread)
                 else if raw != "" then Lookup(before, raw) else None;
    && Lookup(after, thread) == Some(id) && (raw != "" ==> Lookup(after, raw) == Some(id))
    && (forall k :: k != thread && (raw == "" || k != raw) ==> Lookup(after, k) == Lookup(before, k))
    && (if known.Some? then id == known.value else id !in before.streams)
  }

  /** And with the row: it shows the item, and is owned by the task the item matched, else the one it is
      linked to, else its owner so far. */
  ghost predicate ItemFiled(before: Tables<string>, after: Tables<string>, item: Item, at: int, id: Id<string>) {
    && id in after.streams
    && (forall j :: j in before.streams && j != id ==> j in after.streams && after.streams[j] == before.streams[j])
    && var ws := after.streams[id];
       && ws.canonicalKey == TrimSpace(item.thread) && ws.feedItem == item.id
       && ws.summary == item.summary && ws.status == "open" && ws.updatedAt == at
       && ws.source == item.source && ws.channel == item.channel && ws.channelType == item.channelType
       && if TrimSpace(item.matchedTask) != "" then ws.owner == Some(TrimSpace(item.matchedTask))
          else if TrimSpace(item.linkedTask) != "" then ws.owner == Some(TrimSpace(item.linkedTask))
          else ws.owner == if id in before.streams then before.streams[id].owner else None
  }

  lemma CallFilesKeys(t: Tables<string>, item: Item, rawThreadKey: string, at: int)
    requires Inv(t) && TrimSpace(item.thread) != ""
    ensures var c := CallFor(item, rawThreadKey, at);
      Inv(Ensured(t, c)) && KeysFiled(t, Ensured(t, c), TrimSpace(item.thread), TrimSpace(rawThreadKey), Target(t, c))
  {
    var c := CallFor(item, rawThreadKey, at);
    EnsureEffect(t, c);
    MintingNeverOverwrites(t, c);
  }

  lemma CallFilesItem(t: Tables<string>, item: Item, rawThreadKey: string, at: int)
    requires Inv(t) && TrimSpace(item.thread) != ""
    ensures var c := CallFor(item, rawThreadKey, at);
      ItemFiled(t, Ensured(t, c), item, at, Target(t, c))
  {
    var c := CallFor(item, rawThreadKey, at);
    StreamsAfter(t, c, Target(t, c));
  }

  // ---- the reference: resolution from the history alone, without tables ----

  /** The workstream of a key: that of the last call that mentioned it. */
  function Resolved<K(==)>(calls: seq<Call<K>>, k: K): Option<Id<K>>
    decreases |calls|, 0
  {
    if calls == [] then None
    else
      var init, last := calls[..|calls| - 1], calls[|calls| - 1];
      if k == last.canonical || k == last.raw then Some(Chosen(init, last)) else Resolved(init, k)
  }

  function Chosen<K(==)>(calls: seq<Call<K>>, c: Call<K>): Id<K>
    decreases |calls|, 1
  {
    match Resolved(calls, c.canonical)
    case Some(id) => id
    case None =>
      match Resolved(calls, c.raw)
      case Some(id) => id
      case None => Aws(c.canonical)
  }

  /** The last call whose choice was this workstream. */
  function LastFor<K(==)>(calls: seq<Call<K>>, id: Id<K>): Option<Call<K>> {
    if calls == [] then None
    else
      var init, last := calls[..|calls| - 1], calls[|calls| - 1];
      if Chosen(init, last) == id then Some(last) else LastFor(init, id)
  }

  /** The last owner given to this workstream. */
  function OwnerFor<K(==)>(calls: seq<Call<K>>, id: Id<K>): Option<string> {
    if calls == [] then None
    else
      var init, last := calls[..|calls| - 1], calls[|calls| - 1];
      if Chosen(init, last) == id then OrElse(last.owner, OwnerFor(init, id)) else OwnerFor(init, id)
  }

  /** After any run the tables answer every key lookup as the history does. */
  lemma {:induction false} LookupFollowsHistory<K(!new)>(calls: seq<Call<K>>, k: K)
    ensures Lookup(Run(calls), k) == Resolved(calls, k)
    decreases |calls|, 0
  {
    if calls != [] {
      var init, last := calls[..|calls| - 1], calls[|calls| - 1];
      RunKeepsInv(init);
      TargetFollowsHistory(init, last);
      EnsureEffect(Run(init), last);
      LookupFollowsHistory(init, k);
    }
  }

  lemma {:induction false} TargetFollowsHistory<K(!new)>(calls: seq<Call<K>>, c: Call<K>)
    ensures Target(Run(calls), c) == Chosen(calls, c)
    decreases |calls|, 1
  {
    LookupFollowsHistory(calls, c.canonical);
    LookupFollowsHistory(calls, c.raw);
  }

  /** Each workstream exists since a call chose it, and shows the key, card and owner of those calls. */
  lemma {:induction false} StreamsFollowHistory<K(!new)>(calls: seq<Call<K>>, id: Id<K>)
    ensures id in Run(calls).streams <==> LastFor(calls, id).Some?
    ensures id in Run(calls).streams ==>
      && Run(calls).streams[id].canonicalKey == LastFor(calls, id).value.canonical
      && Run(calls).streams[id].feedItem == LastFor(calls, id).value.item.id
      && Run(calls).streams[id].owner == OwnerFor(calls, id)
    ensures id !in Run(calls).streams ==> OwnerFor(calls, id) == None
  {
    if calls != [] {
      var init, last := calls[..|calls| - 1], calls[|calls| - 1];
      StreamsFollowHistory(init, id);
      RunKeepsInv(init);
      TargetFollowsHistory(init, last);
      StreamsAfter(Run(init), last, Chosen(init, last));
    }
  }
}
