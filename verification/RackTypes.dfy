/** Rack types: a request names tags and logical devices by ID; what is sent names tags by label and
    carries the tags and devices themselves; what is read back is resolved from what it carries. */
module RackTypes {
  import opened Common

  datatype TagData = TagData(labelText: string, description: string)

  datatype Device = Device(id: ObjectId, content: string)

  // A rack is written with tags and devices as IDs, as labels and IDs, or as themselves.
  datatype Link<T> = Link(tags: seq<T>, content: string)
  datatype Leaf<T, D> = Leaf(tags: seq<T>, device: D, content: string)
  datatype System<T, D> = System(tags: seq<T>, links: seq<Link<T>>, device: D, content: string)
  datatype Rack<T, D> =
    Rack(content: string, leafs: seq<Leaf<T, D>>, accesses: seq<System<T, D>>, generics: seq<System<T, D>>)

  type Request = Rack<ObjectId, ObjectId>
  datatype RawRack = RawRack(rack: Rack<string, ObjectId>, tags: seq<TagData>, devices: seq<Device>)
  type RackType = Rack<TagData, Device>

  type TagMap = map<ObjectId, TagData>

  datatype RackError = TagNotFetched(id: ObjectId) | DeviceNotFetched(id: ObjectId)
                     | TagIdMissing(id: ObjectId) | LabelMissing(labelText: string) | DeviceMissing(id: ObjectId)

  // ----- raw(tagMap) of the elements -----

  function RawTags(tagMap: TagMap, ids: seq<ObjectId>): Result<seq<string>, RackError> {
    if ids == [] then Ok([]) else
    if ids[0] !in tagMap then Err(TagIdMissing(ids[0])) else
    var rest :- RawTags(tagMap, ids[1..]);
    Ok([tagMap[ids[0]].labelText] + rest)
  }

  function RawLinks(tagMap: TagMap, links: seq<Link<ObjectId>>): Result<seq<Link<string>>, RackError> {
    if links == [] then Ok([]) else
    var tags :- RawTags(tagMap, links[0].tags);
    var rest :- RawLinks(tagMap, links[1..]);
    Ok([Link(tags, links[0].content)] + rest)
  }

  function RawLeaf(tagMap: TagMap, leaf: Leaf<ObjectId, ObjectId>): Result<Leaf<string, ObjectId>, RackError> {
    var tags :- RawTags(tagMap, leaf.tags);
    Ok(Leaf(tags, leaf.device, leaf.content))
  }

  function RawSystem(tagMap: TagMap, system: System<ObjectId, ObjectId>): Result<System<string, ObjectId>, RackError> {
    var tags :- RawTags(tagMap, system.tags);
    var links :- RawLinks(tagMap, system.links);
    Ok(System(tags, links, system.device, system.content))
  }

  // ----- a rack with its tags and devices replaced -----

  function MapLinks<T, U>(f: T -> U, links: seq<Link<T>>): (r: seq<Link<U>>)
    ensures |r| == |links|
  {
    seq(|links|, i requires 0 <= i < |links| => Link(MapTags(f, links[i].tags), links[i].content))
  }

  function MapTags<T, U>(f: T -> U, tags: seq<T>): (r: seq<U>)
    ensures |r| == |tags|
  {
    seq(|tags|, i requires 0 <= i < |tags| => f(tags[i]))
  }

  function MapLeafs<T, U, D, E>(f: T -> U, g: D -> E, leafs: seq<Leaf<T, D>>): (r: seq<Leaf<U, E>>)
    ensures |r| == |leafs|
  {
    seq(|leafs|, i requires 0 <= i < |leafs| => MapLeaf(f, g, leafs[i]))
  }

  function MapLeaf<T, U, D, E>(f: T -> U, g: D -> E, leaf: Leaf<T, D>): Leaf<U, E> {
    Leaf(MapTags(f, leaf.tags), g(leaf.device), leaf.content)
  }

  function MapSystem<T, U, D, E>(f: T -> U, g: D -> E, s: System<T, D>): System<U, E> {
    System(MapTags(f, s.tags), MapLinks(f, s.links), g(s.device), s.content)
  }

  function MapSystems<T, U, D, E>(f: T -> U, g: D -> E, systems: seq<System<T, D>>): (r: seq<System<U, E>>)
    ensures |r| == |systems|
  {
    seq(|systems|, i requires 0 <= i < |systems| => MapSystem(f, g, systems[i]))
  }

  function MapRack<T, U, D, E>(f: T -> U, g: D -> E, rack: Rack<T, D>): Rack<U, E> {
    Rack(rack.content, MapLeafs(f, g, rack.leafs), MapSystems(f, g, rack.accesses), MapSystems(f, g, rack.generics))
  }

  function Same(): ObjectId -> ObjectId {
    (id: ObjectId) => id
  }

  function DataIn(tags: TagMap): ObjectId -> TagData {
    (id: ObjectId) => if id in tags then tags[id] else TagData("", "")
  }

  function LabelIn(tags: TagMap): ObjectId -> string {
    (id: ObjectId) => if id in tags then tags[id].labelText else ""
  }

  function DeviceIn(devices: map<ObjectId, Device>): ObjectId -> Device {
    (id: ObjectId) => if id in devices then devices[id] else Device(id, "")
  }

  lemma MapsToItself(rack: Request)
    ensures MapRack(Same(), Same(), rack) == rack
  {
    forall i | 0 <= i < |rack.leafs| ensures MapLeaf(Same(), Same(), rack.leafs[i]) == rack.leafs[i] {
      assert MapTags(Same(), rack.leafs[i].tags) == rack.leafs[i].tags;
    }
    SystemsMapToThemselves(rack.accesses);
    SystemsMapToThemselves(rack.generics);
  }

  lemma SystemsMapToThemselves(systems: seq<System<ObjectId, ObjectId>>)
    ensures MapSystems(Same(), Same(), systems) == systems
  {
    forall i | 0 <= i < |systems| ensures MapSystem(Same(), Same(), systems[i]) == systems[i] {
      var s := systems[i];
      assert MapTags(Same(), s.tags) == s.tags;
      forall j | 0 <= j < |s.links| ensures MapLinks(Same(), s.links)[j] == s.links[j] {
        assert MapTags(Same(), s.links[j].tags) == s.links[j].tags;
      }
      assert MapLinks(Same(), s.links) == s.links;
    }
  }

  // ----- what a request mentions, in the order its tags are looked at -----

  function TagsOfLinks<T>(links: seq<Link<T>>): seq<T> {
    if links == [] then [] else links[0].tags + TagsOfLinks(links[1..])
  }

  function TagsOfLeafs<T, D>(leafs: seq<Leaf<T, D>>): seq<T> {
    if leafs == [] then [] else leafs[0].tags + TagsOfLeafs(leafs[1..])
  }

  function TagsOfSystems<T, D>(systems: seq<System<T, D>>): seq<T> {
    if systems == [] then []
    else systems[0].tags + TagsOfLinks(systems[0].links) + TagsOfSystems(systems[1..])
  }

  function Mentions<T, D>(rack: Rack<T, D>): seq<T> {
    TagsOfLeafs(rack.leafs) + TagsOfSystems(rack.accesses) + TagsOfSystems(rack.generics)
  }

  function DevicesOfLeafs<T>(leafs: seq<Leaf<T, ObjectId>>): set<ObjectId> {
    if leafs == [] then {} else {leafs[0].device} + DevicesOfLeafs(leafs[1..])
  }

  function DevicesOfSystems<T>(systems: seq<System<T, ObjectId>>): set<ObjectId> {
    if systems == [] then {} else {systems[0].device} + DevicesOfSystems(systems[1..])
  }

  function DevicesOf<T>(rack: Rack<T, ObjectId>): set<ObjectId> {
    DevicesOfLeafs(rack.leafs) + DevicesOfSystems(rack.accesses) + DevicesOfSystems(rack.generics)
  }

  // ----- the tag cache -----

  /** The cache, what has been asked of the server, and whether every tag so far was there. */
  datatype Gathered = Gathered(cache: TagMap, asked: seq<ObjectId>, ok: bool)

  function GatherOne(tags: TagMap, g: Gathered, id: ObjectId): Gathered {
    if !g.ok || id in g.cache then g
    else if id in tags then Gathered(g.cache[id := tags[id]], g.asked + [id], true)
    else Gathered(g.cache, g.asked + [id], false)
  }

  function Gather(tags: TagMap, g: Gathered, ids: seq<ObjectId>): Gathered
    decreases |ids|
  {
    if ids == [] then g else Gather(tags, GatherOne(tags, g, ids[0]), ids[1..])
  }

  lemma {:induction false} GatherAppend(tags: TagMap, g: Gathered, a: seq<ObjectId>, b: seq<ObjectId>)
    ensures Gather(tags, g, a + b) == Gather(tags, Gather(tags, g, a), b)
    decreases |a|
  {
    if a == [] {
      assert a + b == b;
    } else {
      assert (a + b)[0] == a[0] && (a + b)[1..] == a[1..] + b;
      GatherAppend(tags, GatherOne(tags, g, a[0]), a[1..], b);
    }
  }

  lemma {:induction false} GatherStops(tags: TagMap, g: Gathered, ids: seq<ObjectId>)
    requires !g.ok
    ensures Gather(tags, g, ids) == g
    decreases |ids|
  {
    if ids != [] {
      GatherStops(tags, g, ids[1..]);
    }
  }

  /** The cache holds the server's tags that were asked for, each asked for once. */
  ghost predicate Tidy(tags: TagMap, g: Gathered) {
    && (forall id <- g.cache :: id in tags && g.cache[id] == tags[id] && id in g.asked)
    && NoDuplicates(g.asked)
    && (g.ok ==> forall id <- g.asked :: id in g.cache)
  }

  /** Gathering succeeds exactly when the server has every tag mentioned. The cache then has them all
      and nothing else that was not there before; and no tag is ever asked for twice. */
  lemma {:induction false} GatherMeans(tags: TagMap, g: Gathered, ids: seq<ObjectId>)
    requires Tidy(tags, g) && g.ok
    ensures Tidy(tags, Gather(tags, g, ids))
    ensures Gather(tags, g, ids).ok <==> forall id <- ids :: id in tags
    ensures Gather(tags, g, ids).ok ==>
              forall id :: id in Gather(tags, g, ids).cache <==> id in g.cache || id in ids
    decreases |ids|
  {
    if ids != [] {
      var next := GatherOne(tags, g, ids[0]);
      if next.ok {
        GatherMeans(tags, next, ids[1..]);
      } else {
        GatherStops(tags, next, ids[1..]);
      }
    }
  }

  // ----- with every tag in the cache, the elements cannot miss one -----

  predicate Cached(tagMap: TagMap, tags: TagMap, ids: seq<ObjectId>) {
    forall id <- ids :: id in tagMap && id in tags && tagMap[id] == tags[id]
  }

  lemma {:induction false} RawTagsFound(tagMap: TagMap, tags: TagMap, ids: seq<ObjectId>)
    requires Cached(tagMap, tags, ids)
    ensures RawTags(tagMap, ids) == Ok(MapTags(LabelIn(tags), ids))
  {
    if ids != [] {
      assert ids[0] in ids;
      RawTagsFound(tagMap, tags, ids[1..]);
      assert LabelIn(tags)(ids[0]) == tagMap[ids[0]].labelText;
      assert MapTags(LabelIn(tags), ids) == [tagMap[ids[0]].labelText] + MapTags(LabelIn(tags), ids[1..]);
    }
  }

  lemma {:induction false} RawLinksFound(tagMap: TagMap, tags: TagMap, links: seq<Link<ObjectId>>)
    requires Cached(tagMap, tags, TagsOfLinks(links))
    ensures RawLinks(tagMap, links) == Ok(MapLinks(LabelIn(tags), links))
  {
    if links != [] {
      RawTagsFound(tagMap, tags, links[0].tags);
      RawLinksFound(tagMap, tags, links[1..]);
      var f := LabelIn(tags);
      assert MapLinks(f, links) == [Link(MapTags(f, links[0].tags), links[0].content)] + MapLinks(f, links[1..]);
    }
  }

  lemma RawSystemFound(tagMap: TagMap, tags: TagMap, system: System<ObjectId, ObjectId>)
    requires Cached(tagMap, tags, system.tags + TagsOfLinks(system.links))
    ensures RawSystem(tagMap, system) == Ok(MapSystem(LabelIn(tags), Same(), system))
  {
    assert forall id :: id in system.tags || id in TagsOfLinks(system.links)
                        ==> id in system.tags + TagsOfLinks(system.links);
    RawTagsFound(tagMap, tags, system.tags);
    RawLinksFound(tagMap, tags, system.links);
  }

  // ----- RackTypeRequest.raw -----

  /** The error names the tag asked for last, which the server does not have. */
  predicate Missed(tags: TagMap, asked: seq<ObjectId>, error: RackError) {
    asked != [] && error == TagNotFetched(asked[|asked| - 1]) && error.id !in tags
  }

  /** One call of raw(): the server it asks, whose tags and devices do not change meanwhile, what it
      has asked for, and what it has gathered. */
  class Gathering {
    const tags: TagMap
    const devices: map<ObjectId, Device>
    var tagsAsked: seq<ObjectId>
    var tagMap: TagMap
    var ldMap: set<ObjectId>

    constructor (tags: TagMap, devices: map<ObjectId, Device>)
      ensures this.tags == tags && this.devices == devices
      ensures tagsAsked == [] && tagMap == map[] && ldMap == {}
    {
      this.tags, this.devices := tags, devices;
      tagsAsked, tagMap, ldMap := [], map[], {};
    }

    ghost function State(): Gathered
      reads this
    {
      Gathered(tagMap, tagsAsked, true)
    }

    method GetTag(id: ObjectId) returns (r: Result<TagData, RackError>)
      modifies this`tagsAsked
      ensures tagsAsked == old(tagsAsked) + [id]
      ensures r == if id in tags then Ok(tags[id]) else Err(TagNotFetched(id))
    {
      tagsAsked := tagsAsked + [id];
      r := if id in tags then Ok(tags[id]) else Err(TagNotFetched(id));
    }

    /** getLabelAndCacheTagById: asks the server for a tag not seen before. */
    method LabelOf(id: ObjectId) returns (r: Result<string, RackError>)
      modifies this`tagMap, this`tagsAsked
      ensures Gathered(tagMap, tagsAsked, r.Ok?) == GatherOne(tags, old(State()), id)
      ensures r == if id in tagMap then Ok(tagMap[id].labelText) else Err(TagNotFetched(id))
      ensures r.Err? ==> Missed(tags, tagsAsked, r.error)
    {
      if id in tagMap {
        return Ok(tagMap[id].labelText);
      }
      var tag :- GetTag(id);
      tagMap := tagMap[id := tag];
      r := Ok(tag.labelText);
    }

    method CacheTags(ids: seq<ObjectId>) returns (r: Result<(), RackError>)
      modifies this`tagMap, this`tagsAsked
      ensures Gathered(tagMap, tagsAsked, r.Ok?) == Gather(tags, old(State()), ids)
      ensures r.Err? ==> Missed(tags, tagsAsked, r.error)
    {
      assert ids[0..] == ids;
      for i := 0 to |ids|
        invariant Gather(tags, old(State()), ids) == Gather(tags, State(), ids[i..])
      {
        var got := LabelOf(ids[i]);
        if got.Err? {
          GatherStops(tags, Gathered(tagMap, tagsAsked, false), ids[i + 1..]);
          return Err(got.error);
        }
      }
      r := Ok(());
    }

    method CacheLinkTags(links: seq<Link<ObjectId>>) returns (r: Result<(), RackError>)
      modifies this`tagMap, this`tagsAsked
      ensures Gathered(tagMap, tagsAsked, r.Ok?) == Gather(tags, old(State()), TagsOfLinks(links))
      ensures r.Err? ==> Missed(tags, tagsAsked, r.error)
    {
      assert links[0..] == links;
      for i := 0 to |links|
        invariant Gather(tags, old(State()), TagsOfLinks(links)) == Gather(tags, State(), TagsOfLinks(links[i..]))
      {
        GatherAppend(tags, State(), links[i].tags, TagsOfLinks(links[i + 1..]));
        var got := CacheTags(links[i].tags);
        if got.Err? {
          GatherStops(tags, Gathered(tagMap, tagsAsked, false), TagsOfLinks(links[i + 1..]));
          return Err(got.error);
        }
      }
      r := Ok(());
    }

    /** Once its tags are cached, raw(tagMap) of a leaf cannot fail. */
    method RawOneLeaf(leaf: Leaf<ObjectId, ObjectId>) returns (r: Result<Leaf<string, ObjectId>, RackError>)
      requires Tidy(tags, State())
      modifies this
      ensures Gathered(tagMap, tagsAsked, r.Ok?) == Gather(tags, old(State()), leaf.tags)
      ensures Tidy(tags, Gathered(tagMap, tagsAsked, r.Ok?)) && (r.Err? ==> Missed(tags, tagsAsked, r.error))
      ensures r.Ok? ==> r.value == MapLeaf(LabelIn(tags), Same(), leaf) && ldMap == old(ldMap) + {leaf.device}
    {
      GatherMeans(tags, State(), leaf.tags);
      var got := CacheTags(leaf.tags);
      if got.Err? {
        return Err(got.error);
      }
      RawTagsFound(tagMap, tags, leaf.tags);
      ldMap := ldMap + {leaf.device};
      r := RawLeaf(tagMap, leaf);
    }

    method RawLeafs(leafs: seq<Leaf<ObjectId, ObjectId>>)
      returns (r: Result<seq<Leaf<string, ObjectId>>, RackError>)
      requires Tidy(tags, State())
      modifies this
      ensures Gathered(tagMap, tagsAsked, r.Ok?) == Gather(tags, old(State()), TagsOfLeafs(leafs))
      ensures Tidy(tags, Gathered(tagMap, tagsAsked, r.Ok?)) && (r.Err? ==> Missed(tags, tagsAsked, r.error))
      ensures r.Ok? ==> r.value == MapLeafs(LabelIn(tags), Same(), leafs)
      ensures r.Ok? ==> ldMap == old(ldMap) + DevicesOfLeafs(leafs)
    {
      var result := [];
      assert leafs[0..] == leafs;
      for i := 0 to |leafs|
        invariant Tidy(tags, State())
        invariant Gather(tags, old(State()), TagsOfLeafs(leafs)) == Gather(tags, State(), TagsOfLeafs(leafs[i..]))
        invariant |result| == i && forall j :: 0 <= j < i ==> result[j] == MapLeaf(LabelIn(tags), Same(), leafs[j])
        invariant ldMap + DevicesOfLeafs(leafs[i..]) == old(ldMap) + DevicesOfLeafs(leafs)
      {
        GatherAppend(tags, State(), leafs[i].tags, TagsOfLeafs(leafs[i + 1..]));
        var raw := RawOneLeaf(leafs[i]);
        if raw.Err? {
          GatherStops(tags, Gathered(tagMap, tagsAsked, false), TagsOfLeafs(leafs[i + 1..]));
          return Err(raw.error);
        }
        result := result + [raw.value];
      }
      r := Ok(result);
    }

    method RawOneSystem(system: System<ObjectId, ObjectId>) returns (r: Result<System<string, ObjectId>, RackError>)
      requires Tidy(tags, State())
      modifies this
      ensures Gathered(tagMap, tagsAsked, r.Ok?) == Gather(tags, old(State()), system.tags + TagsOfLinks(system.links))
      ensures Tidy(tags, Gathered(tagMap, tagsAsked, r.Ok?)) && (r.Err? ==> Missed(tags, tagsAsked, r.error))
      ensures r.Ok? ==> r.value == MapSystem(LabelIn(tags), Same(), system) && ldMap == old(ldMap) + {system.device}
    {
      GatherMeans(tags, State(), system.tags + TagsOfLinks(system.links));
      GatherAppend(tags, State(), system.tags, TagsOfLinks(system.links));
      var got := CacheTags(system.tags);
      if got.Err? {
        GatherStops(tags, Gathered(tagMap, tagsAsked, false), TagsOfLinks(system.links));
        return Err(got.error);
      }
      got := CacheLinkTags(system.links);
      if got.Err? {
        return Err(got.error);
      }
      RawSystemFound(tagMap, tags, system);
      ldMap := ldMap + {system.device};
      r := RawSystem(tagMap, system);
    }

    /** Access switches and generic systems are gone through alike. */
    method RawSystems(systems: seq<System<ObjectId, ObjectId>>)
      returns (r: Result<seq<System<string, ObjectId>>, RackError>)
      requires Tidy(tags, State())
      modifies this
      ensures Gathered(tagMap, tagsAsked, r.Ok?) == Gather(tags, old(State()), TagsOfSystems(systems))
      ensures Tidy(tags, Gathered(tagMap, tagsAsked, r.Ok?)) && (r.Err? ==> Missed(tags, tagsAsked, r.error))
      ensures r.Ok? ==> r.value == MapSystems(LabelIn(tags), Same(), systems)
      ensures r.Ok? ==> ldMap == old(ldMap) + DevicesOfSystems(systems)
    {
      var result := [];
      assert systems[0..] == systems;
      for i := 0 to |systems|
        invariant Tidy(tags, State())
        invariant Gather(tags, old(State()), TagsOfSystems(systems))
               == Gather(tags, State(), TagsOfSystems(systems[i..]))
        invariant |result| == i && forall j :: 0 <= j < i ==> result[j] == MapSystem(LabelIn(tags), Same(), systems[j])
        invariant ldMap + DevicesOfSystems(systems[i..]) == old(ldMap) + DevicesOfSystems(systems)
      {
        var ids := systems[i].tags + TagsOfLinks(systems[i].links);
        GatherAppend(tags, State(), ids, TagsOfSystems(systems[i + 1..]));
        var raw := RawOneSystem(systems[i]);
        if raw.Err? {
          GatherStops(tags, Gathered(tagMap, tagsAsked, false), TagsOfSystems(systems[i + 1..]));
          return Err(raw.error);
        }
        result := result + [raw.value];
      }
      r := Ok(result);
    }
  }

  /** A list of a set's members, in any order: how a Go map is ranged over. */
  ghost predicate Lists(order: seq<ObjectId>, members: set<ObjectId>) {
    NoDuplicates(order) && forall id :: id in order <==> id in members
  }

  /** What raw() makes of a request, given the order in which its maps were ranged over. */
  ghost predicate IsRawOf(raw: RawRack, request: Request, tags: TagMap, devices: map<ObjectId, Device>,
                          tagOrder: seq<ObjectId>, deviceOrder: seq<ObjectId>) {
    && raw.rack == MapRack(LabelIn(tags), Same(), request)
    && NoDuplicates(tagOrder) && (forall id :: id in tagOrder <==> id in Mentions(request))
    && raw.tags == MapTags(DataIn(tags), tagOrder)
    && Lists(deviceOrder, DevicesOf(request)) && raw.devices == MapTags(DeviceIn(devices), deviceOrder)
  }

  /** RackTypeRequest.raw: succeeds exactly when the server has every tag and device mentioned, and
      asks for no tag twice. */
  method Raw(request: Request, tags: TagMap, devices: map<ObjectId, Device>)
    returns (r: Result<RawRack, RackError>, tagsAsked: seq<ObjectId>,
             ghost tagOrder: seq<ObjectId>, ghost deviceOrder: seq<ObjectId>)
    ensures r.Err? ==> NotThere(request, tags, devices, r.error)
    ensures r.Ok? <==> (forall id <- Mentions(request) :: id in tags) && DevicesOf(request) <= devices.Keys
    ensures NoDuplicates(tagsAsked) && (forall id <- tagsAsked :: id in Mentions(request))
    ensures r.Ok? ==> forall id <- Mentions(request) :: id in tagsAsked
    ensures r.Ok? ==> IsRawOf(r.value, request, tags, devices, tagOrder, deviceOrder)
  {
    var g := new Gathering(tags, devices);
    ghost var start := g.State();
    ghost var leafTags, accessTags, genericTags :=
      TagsOfLeafs(request.leafs), TagsOfSystems(request.accesses), TagsOfSystems(request.generics);
    GatherAppend(tags, start, leafTags, accessTags);
    GatherAppend(tags, start, leafTags + accessTags, genericTags);
    GatherMeans(tags, start, Mentions(request));
    OnlyMentionedAsked(tags, start, Mentions(request));
    tagOrder, deviceOrder := [], [];

    var leafs := g.RawLeafs(request.leafs);
    if leafs.Err? {
      GatherStops(tags, Gathered(g.tagMap, g.tagsAsked, false), accessTags);
      GatherStops(tags, Gathered(g.tagMap, g.tagsAsked, false), genericTags);
      return Err(leafs.error), g.tagsAsked, [], [];
    }
    var accesses := g.RawSystems(request.accesses);
    if accesses.Err? {
      GatherStops(tags, Gathered(g.tagMap, g.tagsAsked, false), genericTags);
      return Err(accesses.error), g.tagsAsked, [], [];
    }
    var generics := g.RawSystems(request.generics);
    if generics.Err? {
      return Err(generics.error), g.tagsAsked, [], [];
    }
    tagsAsked := g.tagsAsked;
    assert g.ldMap == DevicesOf(request);
    var deviceList, missing;
    deviceList, missing, deviceOrder := FetchDevices(g.ldMap, devices);
    if missing.Some? {
      return Err(DeviceNotFetched(missing.value)), tagsAsked, [], [];
    }
    var tagList;
    tagList, tagOrder := ListTags(g.tagMap, tags);
    r := Ok(RawRack(Rack(request.content, leafs.value, accesses.value, generics.value), tagList, deviceList));
  }

  /** The error names something that the request mentions and the server does not have. */
  predicate NotThere(request: Request, tags: TagMap, devices: map<ObjectId, Device>, error: RackError) {
    match error
    case TagNotFetched(id) => id in Mentions(request) && id !in tags
    case DeviceNotFetched(id) => id in DevicesOf(request) && id !in devices
    case _ => false
  }

  lemma {:induction false} OnlyMentionedAsked(tags: TagMap, g: Gathered, ids: seq<ObjectId>)
    ensures forall id <- Gather(tags, g, ids).asked :: id in g.asked || id in ids
    decreases |ids|
  {
    if ids != [] {
      OnlyMentionedAsked(tags, GatherOne(tags, g, ids[0]), ids[1..]);
    }
  }

  method FetchDevices(ids: set<ObjectId>, devices: map<ObjectId, Device>)
    returns (result: seq<Device>, missing: Option<ObjectId>, ghost order: seq<ObjectId>)
    ensures missing.None? <==> ids <= devices.Keys
    ensures missing.Some? ==> missing.value in ids && missing.value !in devices
    ensures missing.None? ==> Lists(order, ids) && result == MapTags(DeviceIn(devices), order)
  {
    var todo := ids;
    result, order := [], [];
    while todo != {}
      invariant todo <= ids && Lists(order, ids - todo) && ids - todo <= devices.Keys
      invariant result == MapTags(DeviceIn(devices), order)
      decreases todo
    {
      var id :| id in todo;
      if id !in devices {
        return result, Some(id), order;
      }
      todo := todo - {id};
      result, order := result + [devices[id]], order + [id];
    }
    missing := None;
  }

  method ListTags(tagMap: TagMap, ghost tags: TagMap) returns (result: seq<TagData>, ghost order: seq<ObjectId>)
    requires forall id <- tagMap :: id in tags && tags[id] == tagMap[id]
    ensures Lists(order, tagMap.Keys) && result == MapTags(DataIn(tags), order)
  {
    var todo := tagMap.Keys;
    result, order := [], [];
    while todo != {}
      invariant todo <= tagMap.Keys && Lists(order, tagMap.Keys - todo)
      invariant result == MapTags(DataIn(tags), order)
      decreases todo
    {
      var id :| id in todo;
      todo := todo - {id};
      result, order := result + [tagMap[id]], order + [id];
    }
  }

  // ----- rawRackType.polish -----

  function DeviceById(devices: seq<Device>, id: ObjectId): Option<Device> {
    if devices == [] then None
    else if devices[0].id == id then Some(devices[0])
    else DeviceById(devices[1..], id)
  }

  function TagByLabel(tags: seq<TagData>, labelText: string): Option<TagData> {
    if tags == [] then None
    else if tags[0].labelText == labelText then Some(tags[0])
    else TagByLabel(tags[1..], labelText)
  }

  function PolishTags(raw: RawRack, labels: seq<string>): Result<seq<TagData>, RackError> {
    if labels == [] then Ok([]) else
    var found := TagByLabel(raw.tags, labels[0]);
    if found.None? then Err(LabelMissing(labels[0])) else
    var rest :- PolishTags(raw, labels[1..]);
    Ok([found.value] + rest)
  }

  function PolishLinks(raw: RawRack, links: seq<Link<string>>): Result<seq<Link<TagData>>, RackError> {
    if links == [] then Ok([]) else
    var tags :- PolishTags(raw, links[0].tags);
    var rest :- PolishLinks(raw, links[1..]);
    Ok([Link(tags, links[0].content)] + rest)
  }

  function PolishDevice(raw: RawRack, id: ObjectId): Result<Device, RackError> {
    match DeviceById(raw.devices, id)
    case Some(device) => Ok(device)
    case None => Err(DeviceMissing(id))
  }

  function PolishLeaf(raw: RawRack, leaf: Leaf<string, ObjectId>): Result<Leaf<TagData, Device>, RackError> {
    var device :- PolishDevice(raw, leaf.device);
    var tags :- PolishTags(raw, leaf.tags);
    Ok(Leaf(tags, device, leaf.content))
  }

  function PolishAccess(raw: RawRack, system: System<string, ObjectId>): Result<System<TagData, Device>, RackError> {
    var device :- PolishDevice(raw, system.device);
    var tags :- PolishTags(raw, system.tags);
    var links :- PolishLinks(raw, system.links);
    Ok(System(tags, links, device, system.content))
  }

  /** Generic systems are looked up in another order, which shows only in which error comes first. */
  function PolishGeneric(raw: RawRack, system: System<string, ObjectId>): Result<System<TagData, Device>, RackError> {
    var links :- PolishLinks(raw, system.links);
    var device :- PolishDevice(raw, system.device);
    var tags :- PolishTags(raw, system.tags);
    Ok(System(tags, links, device, system.content))
  }

  function PolishLeafs(raw: RawRack, leafs: seq<Leaf<string, ObjectId>>)
    : Result<seq<Leaf<TagData, Device>>, RackError>
  {
    if leafs == [] then Ok([]) else
    var first :- PolishLeaf(raw, leafs[0]);
    var rest :- PolishLeafs(raw, leafs[1..]);
    Ok([first] + rest)
  }

  function PolishSystems(raw: RawRack, systems: seq<System<string, ObjectId>>, generic: bool)
    : Result<seq<System<TagData, Device>>, RackError>
  {
    if systems == [] then Ok([]) else
    var first :- if generic then PolishGeneric(raw, systems[0]) else PolishAccess(raw, systems[0]);
    var rest :- PolishSystems(raw, systems[1..], generic);
    Ok([first] + rest)
  }

  function Polish(raw: RawRack): Result<RackType, RackError> {
    var leafs :- PolishLeafs(raw, raw.rack.leafs);
    var accesses :- PolishSystems(raw, raw.rack.accesses, false);
    var generics :- PolishSystems(raw, raw.rack.generics, true);
    Ok(Rack(raw.rack.content, leafs, accesses, generics))
  }

  // ----- polishing replaces every label and device ID by what it is looked up as -----

  function TagIn(raw: RawRack): string -> TagData {
    (labelText: string) =>
      var found := TagByLabel(raw.tags, labelText);
      if found.Some? then found.value else TagData("", "")
  }

  function CarriedIn(raw: RawRack): ObjectId -> Device {
    (id: ObjectId) =>
      var found := DeviceById(raw.devices, id);
      if found.Some? then found.value else Device(id, "")
  }

  predicate HasTags(raw: RawRack, labels: seq<string>) {
    forall labelText <- labels :: TagByLabel(raw.tags, labelText).Some?
  }

  predicate HasDevices(raw: RawRack, ids: set<ObjectId>) {
    forall id <- ids :: DeviceById(raw.devices, id).Some?
  }

  lemma {:induction false} PolishTagsMeans(raw: RawRack, labels: seq<string>)
    ensures PolishTags(raw, labels).Ok? <==> HasTags(raw, labels)
    ensures PolishTags(raw, labels).Ok? ==> PolishTags(raw, labels).value == MapTags(TagIn(raw), labels)
  {
    if labels != [] {
      PolishTagsMeans(raw, labels[1..]);
      assert labels == [labels[0]] + labels[1..];
      assert MapTags(TagIn(raw), labels) == [TagIn(raw)(labels[0])] + MapTags(TagIn(raw), labels[1..]);
    }
  }

  lemma HasTagsOf(raw: RawRack, a: seq<string>, b: seq<string>)
    ensures HasTags(raw, a + b) <==> HasTags(raw, a) && HasTags(raw, b)
  {
    assert forall x :: x in a + b <==> x in a || x in b;
  }

  lemma {:induction false} PolishLinksMeans(raw: RawRack, links: seq<Link<string>>)
    ensures PolishLinks(raw, links).Ok? <==> HasTags(raw, TagsOfLinks(links))
    ensures PolishLinks(raw, links).Ok? ==> PolishLinks(raw, links).value == MapLinks(TagIn(raw), links)
  {
    if links != [] {
      PolishTagsMeans(raw, links[0].tags);
      PolishLinksMeans(raw, links[1..]);
      HasTagsOf(raw, links[0].tags, TagsOfLinks(links[1..]));
      var f := TagIn(raw);
      assert MapLinks(f, links) == [Link(MapTags(f, links[0].tags), links[0].content)] + MapLinks(f, links[1..]);
    }
  }

  lemma {:induction false} PolishLeafsMeans(raw: RawRack, leafs: seq<Leaf<string, ObjectId>>)
    ensures PolishLeafs(raw, leafs).Ok? <==> HasTags(raw, TagsOfLeafs(leafs)) && HasDevices(raw, DevicesOfLeafs(leafs))
    ensures PolishLeafs(raw, leafs).Ok? ==> PolishLeafs(raw, leafs).value == MapLeafs(TagIn(raw), CarriedIn(raw), leafs)
  {
    if leafs != [] {
      PolishTagsMeans(raw, leafs[0].tags);
      PolishLeafsMeans(raw, leafs[1..]);
      HasTagsOf(raw, leafs[0].tags, TagsOfLeafs(leafs[1..]));
      assert HasDevices(raw, DevicesOfLeafs(leafs))
        <==> PolishDevice(raw, leafs[0].device).Ok? && HasDevices(raw, DevicesOfLeafs(leafs[1..]));
      var f, g := TagIn(raw), CarriedIn(raw);
      assert MapLeafs(f, g, leafs) == [MapLeaf(f, g, leafs[0])] + MapLeafs(f, g, leafs[1..]);
    }
  }

  lemma PolishSystemMeans(raw: RawRack, system: System<string, ObjectId>, generic: bool)
    ensures var r := if generic then PolishGeneric(raw, system) else PolishAccess(raw, system);
            && (r.Ok? <==>
                  HasTags(raw, system.tags + TagsOfLinks(system.links)) && PolishDevice(raw, system.device).Ok?)
            && (r.Ok? ==> r.value == MapSystem(TagIn(raw), CarriedIn(raw), system))
  {
    PolishTagsMeans(raw, system.tags);
    PolishLinksMeans(raw, system.links);
    HasTagsOf(raw, system.tags, TagsOfLinks(system.links));
  }

  lemma {:induction false} PolishSystemsMeans(raw: RawRack, systems: seq<System<string, ObjectId>>, generic: bool)
    ensures PolishSystems(raw, systems, generic).Ok?
       <==> HasTags(raw, TagsOfSystems(systems)) && HasDevices(raw, DevicesOfSystems(systems))
    ensures PolishSystems(raw, systems, generic).Ok? ==>
              PolishSystems(raw, systems, generic).value == MapSystems(TagIn(raw), CarriedIn(raw), systems)
  {
    if systems != [] {
      PolishSystemMeans(raw, systems[0], generic);
      PolishSystemsMeans(raw, systems[1..], generic);
      HasTagsOf(raw, systems[0].tags + TagsOfLinks(systems[0].links), TagsOfSystems(systems[1..]));
      assert HasDevices(raw, DevicesOfSystems(systems))
        <==> PolishDevice(raw, systems[0].device).Ok? && HasDevices(raw, DevicesOfSystems(systems[1..]));
      var f, g := TagIn(raw), CarriedIn(raw);
      assert MapSystems(f, g, systems) == [MapSystem(f, g, systems[0])] + MapSystems(f, g, systems[1..]);
    }
  }

  /** Polishing succeeds exactly when the rack carries every tag and device it mentions. */
  lemma PolishMeans(raw: RawRack)
    ensures Polish(raw).Ok? <==> HasTags(raw, Mentions(raw.rack)) && HasDevices(raw, DevicesOf(raw.rack))
    ensures Polish(raw).Ok? ==> Polish(raw).value == MapRack(TagIn(raw), CarriedIn(raw), raw.rack)
  {
    var rack := raw.rack;
    PolishLeafsMeans(raw, rack.leafs);
    PolishSystemsMeans(raw, rack.accesses, false);
    PolishSystemsMeans(raw, rack.generics, true);
    HasTagsOf(raw, TagsOfLeafs(rack.leafs), TagsOfSystems(rack.accesses));
    HasTagsOf(raw, TagsOfLeafs(rack.leafs) + TagsOfSystems(rack.accesses), TagsOfSystems(rack.generics));
  }

  // ----- what a mapped rack mentions -----

  lemma MapTagsAppend<T, U>(f: T -> U, a: seq<T>, b: seq<T>)
    ensures MapTags(f, a + b) == MapTags(f, a) + MapTags(f, b)
  {
  }

  lemma {:induction false} TagsOfMappedLinks<T, U>(f: T -> U, links: seq<Link<T>>)
    ensures TagsOfLinks(MapLinks(f, links)) == MapTags(f, TagsOfLinks(links))
  {
    if links != [] {
      TagsOfMappedLinks(f, links[1..]);
      assert MapLinks(f, links)[1..] == MapLinks(f, links[1..]);
      MapTagsAppend(f, links[0].tags, TagsOfLinks(links[1..]));
    }
  }

  lemma {:induction false} TagsOfMappedLeafs<T, U, E>(f: T -> U, g: ObjectId -> E, leafs: seq<Leaf<T, ObjectId>>)
    ensures TagsOfLeafs(MapLeafs(f, g, leafs)) == MapTags(f, TagsOfLeafs(leafs))
  {
    if leafs != [] {
      TagsOfMappedLeafs(f, g, leafs[1..]);
      assert MapLeafs(f, g, leafs)[1..] == MapLeafs(f, g, leafs[1..]);
      MapTagsAppend(f, leafs[0].tags, TagsOfLeafs(leafs[1..]));
    }
  }

  lemma {:induction false} TagsOfMappedSystems<T, U, E>(f: T -> U, g: ObjectId -> E, systems: seq<System<T, ObjectId>>)
    ensures TagsOfSystems(MapSystems(f, g, systems)) == MapTags(f, TagsOfSystems(systems))
  {
    if systems != [] {
      var system := systems[0];
      TagsOfMappedSystems(f, g, systems[1..]);
      TagsOfMappedLinks(f, system.links);
      assert MapSystems(f, g, systems)[1..] == MapSystems(f, g, systems[1..]);
      MapTagsAppend(f, system.tags, TagsOfLinks(system.links));
      MapTagsAppend(f, system.tags + TagsOfLinks(system.links), TagsOfSystems(systems[1..]));
    }
  }

  /** A mapped rack mentions the mapped tags, in the same places. */
  lemma MentionsOfMapped<T, U, E>(f: T -> U, g: ObjectId -> E, rack: Rack<T, ObjectId>)
    ensures Mentions(MapRack(f, g, rack)) == MapTags(f, Mentions(rack))
  {
    TagsOfMappedLeafs(f, g, rack.leafs);
    TagsOfMappedSystems(f, g, rack.accesses);
    TagsOfMappedSystems(f, g, rack.generics);
    MapTagsAppend(f, TagsOfLeafs(rack.leafs), TagsOfSystems(rack.accesses));
    MapTagsAppend(f, TagsOfLeafs(rack.leafs) + TagsOfSystems(rack.accesses), TagsOfSystems(rack.generics));
  }

  lemma {:induction false} DevicesOfMappedLeafs<T, U>(f: T -> U, leafs: seq<Leaf<T, ObjectId>>)
    ensures DevicesOfLeafs(MapLeafs(f, Same(), leafs)) == DevicesOfLeafs(leafs)
  {
    if leafs != [] {
      DevicesOfMappedLeafs(f, leafs[1..]);
      assert MapLeafs(f, Same(), leafs)[1..] == MapLeafs(f, Same(), leafs[1..]);
    }
  }

  lemma {:induction false} DevicesOfMappedSystems<T, U>(f: T -> U, systems: seq<System<T, ObjectId>>)
    ensures DevicesOfSystems(MapSystems(f, Same(), systems)) == DevicesOfSystems(systems)
  {
    if systems != [] {
      DevicesOfMappedSystems(f, systems[1..]);
      assert MapSystems(f, Same(), systems)[1..] == MapSystems(f, Same(), systems[1..]);
    }
  }

  lemma DevicesOfMapped<T, U>(f: T -> U, rack: Rack<T, ObjectId>)
    ensures DevicesOf(MapRack(f, Same(), rack)) == DevicesOf(rack)
  {
    DevicesOfMappedLeafs(f, rack.leafs);
    DevicesOfMappedSystems(f, rack.accesses);
    DevicesOfMappedSystems(f, rack.generics);
  }

  // ----- resolving what was named gives what was meant -----

  /** Naming a tag by its label and looking the label up gives the tag; likewise for the device. */
  predicate TagComesBack(raw: RawRack, tags: TagMap, id: ObjectId) {
    TagIn(raw)(LabelIn(tags)(id)) == DataIn(tags)(id)
  }

  predicate DeviceComesBack(raw: RawRack, devices: map<ObjectId, Device>, id: ObjectId) {
    CarriedIn(raw)(id) == DeviceIn(devices)(id)
  }

  lemma TagsComeBack(raw: RawRack, tags: TagMap, ids: seq<ObjectId>)
    requires forall id <- ids :: TagComesBack(raw, tags, id)
    ensures MapTags(TagIn(raw), MapTags(LabelIn(tags), ids)) == MapTags(DataIn(tags), ids)
  {
    forall i | 0 <= i < |ids| ensures TagIn(raw)(LabelIn(tags)(ids[i])) == DataIn(tags)(ids[i]) {
      assert TagComesBack(raw, tags, ids[i]);
    }
  }

  lemma {:induction false} LinksComeBack(raw: RawRack, tags: TagMap, links: seq<Link<ObjectId>>)
    requires forall id <- TagsOfLinks(links) :: TagComesBack(raw, tags, id)
    ensures MapLinks(TagIn(raw), MapLinks(LabelIn(tags), links)) == MapLinks(DataIn(tags), links)
  {
    if links != [] {
      var f, lab, data := TagIn(raw), LabelIn(tags), DataIn(tags);
      LinksComeBack(raw, tags, links[1..]);
      TagsComeBack(raw, tags, links[0].tags);
      assert MapLinks(f, MapLinks(lab, links))[1..] == MapLinks(f, MapLinks(lab, links[1..]));
      assert MapLinks(data, links)[1..] == MapLinks(data, links[1..]);
    }
  }

  lemma {:induction false} LeafsComeBack(raw: RawRack, tags: TagMap, devices: map<ObjectId, Device>,
                                         leafs: seq<Leaf<ObjectId, ObjectId>>)
    requires forall id <- TagsOfLeafs(leafs) :: TagComesBack(raw, tags, id)
    requires forall id <- DevicesOfLeafs(leafs) :: DeviceComesBack(raw, devices, id)
    ensures MapLeafs(TagIn(raw), CarriedIn(raw), MapLeafs(LabelIn(tags), Same(), leafs))
         == MapLeafs(DataIn(tags), DeviceIn(devices), leafs)
  {
    if leafs != [] {
      var f, g, lab, data := TagIn(raw), CarriedIn(raw), LabelIn(tags), DataIn(tags);
      LeafsComeBack(raw, tags, devices, leafs[1..]);
      TagsComeBack(raw, tags, leafs[0].tags);
      assert DeviceComesBack(raw, devices, leafs[0].device);
      assert MapLeafs(f, g, MapLeafs(lab, Same(), leafs))[1..] == MapLeafs(f, g, MapLeafs(lab, Same(), leafs[1..]));
      assert MapLeafs(data, DeviceIn(devices), leafs)[1..] == MapLeafs(data, DeviceIn(devices), leafs[1..]);
    }
  }

  lemma {:induction false} SystemsComeBack(raw: RawRack, tags: TagMap, devices: map<ObjectId, Device>,
                                           systems: seq<System<ObjectId, ObjectId>>)
    requires forall id <- TagsOfSystems(systems) :: TagComesBack(raw, tags, id)
    requires forall id <- DevicesOfSystems(systems) :: DeviceComesBack(raw, devices, id)
    ensures MapSystems(TagIn(raw), CarriedIn(raw), MapSystems(LabelIn(tags), Same(), systems))
         == MapSystems(DataIn(tags), DeviceIn(devices), systems)
  {
    if systems != [] {
      var f, g, lab, data := TagIn(raw), CarriedIn(raw), LabelIn(tags), DataIn(tags);
      var system := systems[0];
      SystemsComeBack(raw, tags, devices, systems[1..]);
      TagsComeBack(raw, tags, system.tags);
      LinksComeBack(raw, tags, system.links);
      assert DeviceComesBack(raw, devices, system.device);
      assert MapSystems(f, g, MapSystems(lab, Same(), systems))[1..]
          == MapSystems(f, g, MapSystems(lab, Same(), systems[1..]));
      assert MapSystems(data, DeviceIn(devices), systems)[1..] == MapSystems(data, DeviceIn(devices), systems[1..]);
    }
  }

  lemma RackComesBack(raw: RawRack, tags: TagMap, devices: map<ObjectId, Device>, rack: Request)
    requires forall id <- Mentions(rack) :: TagComesBack(raw, tags, id)
    requires forall id <- DevicesOf(rack) :: DeviceComesBack(raw, devices, id)
    ensures MapRack(TagIn(raw), CarriedIn(raw), MapRack(LabelIn(tags), Same(), rack))
         == MapRack(DataIn(tags), DeviceIn(devices), rack)
  {
    LeafsComeBack(raw, tags, devices, rack.leafs);
    SystemsComeBack(raw, tags, devices, rack.accesses);
    SystemsComeBack(raw, tags, devices, rack.generics);
  }

  lemma {:induction false} LookUpDevice(devices: map<ObjectId, Device>, order: seq<ObjectId>, id: ObjectId)
    requires forall d <- devices :: devices[d].id == d
    requires id in order && forall d <- order :: d in devices
    ensures DeviceById(MapTags(DeviceIn(devices), order), id) == Some(devices[id])
  {
    if order[0] != id {
      LookUpDevice(devices, order[1..], id);
      assert MapTags(DeviceIn(devices), order)[1..] == MapTags(DeviceIn(devices), order[1..]);
    }
  }

  /** A label is looked up as the first tag listed that bears it. */
  lemma {:induction false} LookUpTag(tags: TagMap, order: seq<ObjectId>, labelText: string) returns (first: nat)
    requires exists id <- order :: LabelIn(tags)(id) == labelText
    ensures first < |order| && LabelIn(tags)(order[first]) == labelText
    ensures forall i :: 0 <= i < first ==> LabelIn(tags)(order[i]) != labelText
    ensures TagByLabel(MapTags(DataIn(tags), order), labelText) == Some(DataIn(tags)(order[first]))
  {
    if LabelIn(tags)(order[0]) == labelText {
      first := 0;
    } else {
      first := LookUpTag(tags, order[1..], labelText);
      first := first + 1;
      assert MapTags(DataIn(tags), order)[1..] == MapTags(DataIn(tags), order[1..]);
    }
  }

  /** The request is closed: polishing what it sends never fails a lookup, given a server that answers
      with the device it was asked for. */
  lemma RawIsClosed(raw: RawRack, request: Request, tags: TagMap, devices: map<ObjectId, Device>,
                                       tagOrder: seq<ObjectId>, deviceOrder: seq<ObjectId>)
    requires IsRawOf(raw, request, tags, devices, tagOrder, deviceOrder)
    requires DevicesOf(request) <= devices.Keys && forall id <- devices :: devices[id].id == id
    ensures Polish(raw).Ok?
  {
    MentionsOfMapped(LabelIn(tags), Same(), request);
    DevicesOfMapped(LabelIn(tags), request);
    var labels := Mentions(raw.rack);
    forall i | 0 <= i < |labels| ensures TagByLabel(raw.tags, labels[i]).Some? {
      var id := Mentions(request)[i];
      assert id in tagOrder && LabelIn(tags)(id) == labels[i];
      var _ := LookUpTag(tags, tagOrder, labels[i]);
    }
    forall id <- DevicesOf(raw.rack) ensures DeviceById(raw.devices, id).Some? {
      LookUpDevice(devices, deviceOrder, id);
    }
    PolishMeans(raw);
  }

  predicate LabelsTell(request: Request, tags: TagMap) {
    forall a <- Mentions(request), b <- Mentions(request) ::
      LabelIn(tags)(a) == LabelIn(tags)(b) ==> DataIn(tags)(a) == DataIn(tags)(b)
  }

  /** Where labels tell the tags apart, each comes back. */
  lemma TagResolves(raw: RawRack, request: Request, tags: TagMap, order: seq<ObjectId>, id: ObjectId)
    requires raw.tags == MapTags(DataIn(tags), order) && forall x :: x in order <==> x in Mentions(request)
    requires LabelsTell(request, tags) && id in Mentions(request)
    ensures TagComesBack(raw, tags, id)
  {
    var first := LookUpTag(tags, order, LabelIn(tags)(id));
    assert order[first] in order;
  }

  /** Where they do not, one of the two that share a label does not come back. */
  lemma TagMisled(raw: RawRack, request: Request, tags: TagMap, order: seq<ObjectId>)
    returns (id: ObjectId)
    requires raw.tags == MapTags(DataIn(tags), order) && forall x :: x in order <==> x in Mentions(request)
    requires !LabelsTell(request, tags)
    ensures id in Mentions(request) && !TagComesBack(raw, tags, id)
  {
    var a, b :| a in Mentions(request) && b in Mentions(request)
                && LabelIn(tags)(a) == LabelIn(tags)(b) && DataIn(tags)(a) != DataIn(tags)(b);
    var first := LookUpTag(tags, order, LabelIn(tags)(b));
    id := if DataIn(tags)(order[first]) == DataIn(tags)(a) then b else a;
  }

  /** The rack type read back has, for every tag and device the request names, that very tag and
      device, in the same place, exactly when no two different tags named share a label: the order in
      which Go ranges over its maps makes no difference. */
  lemma RequestResolvesIff(raw: RawRack, request: Request, tags: TagMap, devices: map<ObjectId, Device>,
                                              tagOrder: seq<ObjectId>, deviceOrder: seq<ObjectId>)
    requires IsRawOf(raw, request, tags, devices, tagOrder, deviceOrder)
    requires DevicesOf(request) <= devices.Keys && forall id <- devices :: devices[id].id == id
    ensures Polish(raw) == Ok(MapRack(DataIn(tags), DeviceIn(devices), request)) <==> LabelsTell(request, tags)
  {
    RawIsClosed(raw, request, tags, devices, tagOrder, deviceOrder);
    PolishMeans(raw);
    if LabelsTell(request, tags) {
      forall id <- Mentions(request) ensures TagComesBack(raw, tags, id) {
        TagResolves(raw, request, tags, tagOrder, id);
      }
      forall id <- DevicesOf(request) ensures DeviceComesBack(raw, devices, id) {
        LookUpDevice(devices, deviceOrder, id);
      }
      RackComesBack(raw, tags, devices, request);
    } else {
      var id := TagMisled(raw, request, tags, tagOrder);
      var i :| 0 <= i < |Mentions(request)| && Mentions(request)[i] == id;
      MisledAt(raw, request, tags, devices, i);
    }
  }

  lemma MisledAt(raw: RawRack, request: Request, tags: TagMap, devices: map<ObjectId, Device>, i: nat)
    requires raw.rack == MapRack(LabelIn(tags), Same(), request)
    requires i < |Mentions(request)| && !TagComesBack(raw, tags, Mentions(request)[i])
    ensures MapRack(TagIn(raw), CarriedIn(raw), raw.rack) != MapRack(DataIn(tags), DeviceIn(devices), request)
  {
    MentionsOfMapped(LabelIn(tags), Same(), request);
    MentionsOfMapped(TagIn(raw), CarriedIn(raw), raw.rack);
    MentionsOfMapped(DataIn(tags), DeviceIn(devices), request);
    assert Mentions(MapRack(TagIn(raw), CarriedIn(raw), raw.rack))[i]
        != Mentions(MapRack(DataIn(tags), DeviceIn(devices), request))[i];
  }

  /** The server keeps the labels of its tags unique; then every request that can be sent is read back
      with the very tags and devices it names, in the same places. */
  lemma RequestResolves(raw: RawRack, request: Request, tags: TagMap, devices: map<ObjectId, Device>,
                        tagOrder: seq<ObjectId>, deviceOrder: seq<ObjectId>)
    requires IsRawOf(raw, request, tags, devices, tagOrder, deviceOrder)
    requires DevicesOf(request) <= devices.Keys && forall id <- devices :: devices[id].id == id
    requires (forall id <- Mentions(request) :: id in tags)
    requires forall a <- tags, b <- tags :: tags[a].labelText == tags[b].labelText ==> a == b
    ensures Polish(raw) == Ok(MapRack(DataIn(tags), DeviceIn(devices), request))
  {
    RequestResolvesIff(raw, request, tags, devices, tagOrder, deviceOrder);
  }
}
