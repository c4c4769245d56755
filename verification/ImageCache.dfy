/** The disk-backed image cache: a bounded, least-recently-used index with a lifetime for its entries. */
module ImageCache {
  import opened Options

  type Url = string
  type Data = seq<nat>

  datatype Entry = Entry(contentType: string, cachedAt: int, accessedAt: int, size: nat)

  /** What was last stored for a url, and when. */
  datatype Image = Image(data: Data, contentType: string, at: int)

  /** How writing a file goes: all of it, not opened, or cut off after `at` bytes. */
  datatype Write = Whole | Refused | Cut(at: nat)

  /** What a write of `data` that opened the file leaves there. */
  function Left(data: Data, image: Write): Data {
    if image.Cut? && image.at < |data| then data[..image.at] else data
  }

  /** Entries went, least recently accessed first, and only when there was no room. */
  predicate Evicted(before: map<Url, Entry>, after: map<Url, Entry>, maxEntries: int) {
    && (forall v | v in after :: v in before && after[v] == before[v])
    && (forall v, w | v in after && w in before && w !in after :: before[w].accessedAt <= before[v].accessedAt)
    && (|before| < maxEntries ==> after == before)
  }

  datatype StoreResult = Stored | TooLarge | Raised

  /** The bytes a file of the cache has: of the last image, or of a store that raised since. */
  function Shown(last: map<Url, Image>, torn: map<Url, Data>, u: Url): Data
    requires u in last
  {
    if u in torn then torn[u] else last[u].data
  }

  /** The entry says what was last stored for its url. */
  predicate Describes(e: Entry, image: Image) {
    e.contentType == image.contentType && e.cachedAt == image.at && e.size == |image.data|
  }

  /** The index always says what was last stored; so do the files, except where a store raised since. */
  predicate Sound(index: map<Url, Entry>, files: map<Url, Data>, last: map<Url, Image>, torn: map<Url, Data>) {
    && (forall u | u in index :: u in last && Describes(index[u], last[u]))
    && (forall u | u in index && u in files :: files[u] == Shown(last, torn, u))
  }

  class Cache {
    var index: map<Url, Entry>
    var files: map<Url, Data>        // by the file name a url hashes to
    ghost var last: map<Url, Image>  // the last image stored for each url
    ghost var torn: map<Url, Data>   // what a later store left that opened the image file and then raised
    const maxEntries: int
    const maxBytes: int
    const ttl: int

    constructor (maxEntries: int, maxBytes: int, ttl: int)
      ensures Valid() && index == map[] && this.maxEntries == maxEntries && this.maxBytes == maxBytes && this.ttl == ttl
    {
      index, files, last, torn := map[], map[], map[], map[];
      this.maxEntries, this.maxBytes, this.ttl := maxEntries, maxBytes, ttl;
    }

    ghost predicate Valid()
      reads this
    {
      Sound(index, files, last, torn)
    }

    method Remove(u: Url)
      requires Valid()
      modifies this`index, this`files
      ensures Valid() && index == old(index) - {u}
      ensures files == if u in old(index) then old(files) - {u} else old(files)
    {
      if u in index {
        index := index - {u};
        files := files - {u};
      }
    }

    /** The url that was not accessed for longest. */
    method Oldest() returns (u: Url)
      requires index != map[]
      ensures u in index && forall v | v in index :: index[u].accessedAt <= index[v].accessedAt
    {
      var left := index.Keys;
      assert exists v :: v in left;
      u :| u in left;
      left := left - {u};
      while left != {}
        invariant left <= index.Keys && u in index
        invariant forall v | v in index && v !in left :: index[u].accessedAt <= index[v].accessedAt
        decreases |left|
      {
        var v :| v in left;
        if index[v].accessedAt < index[u].accessedAt { u := v; }
        left := left - {v};
      }
    }

    /** Evicts, least recently accessed first, until there is room; with no room at all it runs the index
        empty and raises. */
    method MakeRoom() returns (ok: bool)
      requires Valid()
      modifies this`index, this`files
      ensures Valid() && (ok <==> maxEntries > 0) && (ok ==> |index| < maxEntries)
      ensures Evicted(old(index), index, maxEntries) && (|old(index)| < maxEntries ==> files == old(files))
      ensures maxEntries > 0 && |old(index)| >= maxEntries ==> |index| == maxEntries - 1
      ensures maxEntries <= 0 ==> index == map[]
    {
      while |index| >= maxEntries
        invariant Valid()
        invariant forall u | u in index :: u in old(index) && index[u] == old(index)[u]
        invariant forall u, v | u in index && v in old(index) && v !in index :: old(index)[v].accessedAt <= index[u].accessedAt
        invariant |old(index)| < maxEntries ==> index == old(index) && files == old(files)
        invariant (index == old(index) && files == old(files)) || |index| >= maxEntries - 1
        decreases |index|
      {
        if index == map[] { return false; }
        var u := Oldest();
        assert index.Keys == (index - {u}).Keys + {u};
        Remove(u);
      }
      ok := true;
    }

    /** The image file is written before the description and both before the index, so a store that raises
        after it opened the image file leaves an entry of the url as it was, over other bytes. */
    method Store(u: Url, data: Data, contentType: string, now: int, image: Write, described: bool) returns (r: StoreResult)
      requires Valid()
      modifies this
      ensures Valid()
      ensures r == TooLarge <==> |data| > maxBytes
      ensures r == TooLarge ==> index == old(index) && files == old(files) && last == old(last) && torn == old(torn)
      ensures r == Raised <==> |data| <= maxBytes && (maxEntries <= 0 || image != Whole || !described)
      ensures r == Raised ==> Evicted(old(index), index, maxEntries) && last == old(last)
      ensures r == Raised ==> torn == if maxEntries > 0 && image != Refused then old(torn)[u := Left(data, image)] else old(torn)
      ensures r == Raised && |old(index)| < maxEntries ==> files == if image != Refused then old(files)[u := Left(data, image)] else old(files)
      ensures r == Stored ==> |index| <= maxEntries && u in files
      ensures r == Stored ==> exists room :: Evicted(old(index), room, maxEntries) && index == room[u := Entry(contentType, now, now, |data|)]
      ensures r == Stored ==> last == old(last)[u := Image(data, contentType, now)] && torn == old(torn) - {u}
    {
      if |data| > maxBytes { return TooLarge; }
      var room := MakeRoom();
      if !room || image == Refused { return Raised; }
      r := WriteBoth(u, data, contentType, now, image, described);
    }

    method WriteBoth(u: Url, data: Data, contentType: string, now: int, image: Write, described: bool) returns (r: StoreResult)
      requires Valid() && image != Refused
      modifies this
      ensures Valid()
      ensures r == if image.Cut? || !described then Raised else Stored
      ensures files == old(files)[u := Left(data, image)]
      ensures r == Raised ==> index == old(index) && last == old(last) && torn == old(torn)[u := Left(data, image)]
      ensures r == Stored ==> |index| <= |old(index)| + 1 && index == old(index)[u := Entry(contentType, now, now, |data|)]
      ensures r == Stored ==> last == old(last)[u := Image(data, contentType, now)] && torn == old(torn) - {u}
    {
      RaisedKeepsSound(index, files, last, torn, u, Left(data, image));
      StoredKeepsSound(index, files, last, torn, u, Image(data, contentType, now));
      OneKeyMore(index, u, Entry(contentType, now, now, |data|));
      files := files[u := Left(data, image)];
      if image.Cut? || !described {
        torn := torn[u := Left(data, image)];
        return Raised;
      }
      index := index[u := Entry(contentType, now, now, |data|)];
      last := last[u := Image(data, contentType, now)];
      torn := torn - {u};
      return Stored;
    }

    /** A hit has the type and time of the image last stored for the url, and its bytes if and only if no
        later store that raised left others; a miss that finds an entry drops it. */
    method Retrieve(u: Url, now: int) returns (r: Option<(Data, string)>)
      requires Valid()
      modifies this`index, this`files
      ensures Valid() && index.Keys <= old(index).Keys
      ensures r.Some? <==> u in old(index) && now - old(index)[u].cachedAt <= ttl && u in old(files)
      ensures r.Some? ==> u in last && r.value.1 == last[u].contentType && now - last[u].at <= ttl
      ensures r.Some? ==> (r.value.0 == last[u].data <==> u !in torn || torn[u] == last[u].data)
      ensures r.Some? && u in torn ==> r.value.0 == torn[u]
      ensures r.Some? ==> index == old(index)[u := old(index)[u].(accessedAt := now)] && files == old(files)
      ensures r.None? ==> index == old(index) - {u}
    {
      if u !in index { assert index - {u} == index; return None; }
      if now - index[u].cachedAt > ttl {
        Remove(u);
        return None;
      }
      if u !in files {
        Remove(u);
        return None;
      }
      index := index[u := index[u].(accessedAt := now)];
      return Some((files[u], index[u].contentType));
    }

    method Clear() returns (cleared: nat)
      requires Valid()
      modifies this`index, this`files
      ensures Valid() && index == map[] && cleared == |old(index)|
    {
      cleared := |index|;
      var left := index.Keys;
      while left != {}
        invariant Valid() && index.Keys == left
        decreases |left|
      {
        var u :| u in left;
        Remove(u);
        left := left - {u};
      }
    }
  }

  /** An image is replaced by another, the description of which cannot be written: the next hit has the new
      bytes with the old type and time. */
  method TornHit(u: Url, first: (Data, string), second: (Data, string), maxEntries: int, maxBytes: int, ttl: int, now: int)
    returns (r: Option<(Data, string)>)
    requires maxEntries >= 2 && |first.0| <= maxBytes && |second.0| <= maxBytes && ttl >= 0
    ensures r == Some((second.0, first.1))
  {
    var cache := new Cache(maxEntries, maxBytes, ttl);
    var stored := cache.Store(u, first.0, first.1, now, Whole, true);
    assert cache.index.Keys == {u};
    var raised := cache.Store(u, second.0, second.1, now, Whole, false);
    r := cache.Retrieve(u, now);
  }

  lemma RaisedKeepsSound(index: map<Url, Entry>, files: map<Url, Data>, last: map<Url, Image>, torn: map<Url, Data>, u: Url, left: Data)
    requires Sound(index, files, last, torn)
    ensures Sound(index, files[u := left], last, torn[u := left])
  {
  }

  lemma StoredKeepsSound(index: map<Url, Entry>, files: map<Url, Data>, last: map<Url, Image>, torn: map<Url, Data>, u: Url, image: Image)
    requires Sound(index, files, last, torn)
    ensures Sound(index[u := Entry(image.contentType, image.at, image.at, |image.data|)], files[u := image.data], last[u := image], torn - {u})
  {
  }

  lemma OneKeyMore(index: map<Url, Entry>, u: Url, e: Entry)
    ensures |index[u := e]| <= |index| + 1
  {
    assert index[u := e].Keys == index.Keys + {u};
  }
}
