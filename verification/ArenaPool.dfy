/** The pool of arenas: four buckets, each with a linked list of free entries, and a ledger of what is handed
    out under which name. */
module ArenaPool {
  import opened Collections

  class Entry {
    const bucket: Bucket
    var next: Entry?
    var debug: string

    constructor (bucket: Bucket, debug: string)
      ensures this.bucket == bucket && this.debug == debug && next == null
    {
      this.bucket, this.debug, next := bucket, debug, null;
    }
  }

  class Bucket {
    const max: nat
    const retain: nat
    var freeList: Entry?
    var freeListLen: nat
    /** The entries of the list, first to last. */
    ghost var free: seq<Entry>

    /** The list ends, its length is the recorded one, and its entries are of this bucket. */
    ghost predicate Linked()
      reads this, free`next
    {
      && |free| == freeListLen <= max
      && freeList == (if free == [] then null else free[0])
      && Distinct(free)
      && (forall i {:trigger free[i].next} :: 0 <= i < |free| ==>
            free[i].next == if i + 1 < |free| then free[i + 1] else null)
      && (forall e :: e in free ==> e.bucket == this)
    }

    constructor (max: nat, retain: nat)
      ensures Linked() && free == [] && this.max == max && this.retain == retain
    {
      this.max, this.retain := max, retain;
      freeList, freeListLen, free := null, 0, [];
    }

    lemma FirstFree()
      requires Linked()
      ensures freeList == null <==> free == []
    {
    }

    method Pop() returns (entry: Entry)
      requires Linked() && freeList != null
      modifies this
      ensures Linked() && old(free) == [entry] + free && entry !in free && entry.bucket == this
    {
      entry := freeList;
      freeList := entry.next;
      freeListLen := freeListLen - 1;
      free := free[1..];
    }

    /** Puts an entry before the first one. That is sound for an entry which is not in the list. */
    method Push(entry: Entry)
      requires freeListLen < max
      modifies this, entry`next
      ensures freeList == entry && entry.next == old(freeList) && freeListLen == old(freeListLen) + 1
      ensures free == [entry] + old(free)
      ensures old(Linked()) && entry !in old(free) && entry.bucket == this ==> Linked()
    {
      entry.next := freeList;
      freeList := entry;
      freeListLen := freeListLen + 1;
      free := [entry] + free;
    }

    /** An entry that was in the list and is put before it closes a ring. */
    twostate lemma Ring(entry: Entry) returns (ring: set<Entry>)
      requires old(Linked()) && entry in old(free) && entry.next == old(freeList)
      requires forall e :: e in old(free) && e != entry ==> e.next == old(e.next)
      ensures Endless(entry, ring)
    {
      var was := old(free);
      var k :| 0 <= k < |was| && was[k] == entry;
      ring := set i | 0 <= i <= k :: was[i];
      assert entry.next == was[0];
      forall e | e in ring
        ensures e.next != null && e.next in ring
      {
        var i :| 0 <= i <= k && was[i] == e;
        if i < k { assert old(was[i].next) == was[i + 1]; }
      }
    }

    /** Walks the list to its end. */
    method Drain() returns (freed: seq<Entry>)
      requires Linked()
      ensures freed == free
    {
      freed := [];
      var entry := freeList;
      while entry != null
        invariant |freed| <= |free| && freed == free[..|freed|]
        invariant entry == if |freed| < |free| then free[|freed|] else null
        decreases |free| - |freed|
      {
        var e := entry;
        entry := e.next;
        freed := freed + [e];
      }
    }
  }

  /** Following the links from an entry of a ring never leaves it. */
  ghost predicate Endless(first: Entry, ring: set<Entry>)
    reads ring`next
  {
    first in ring && forall e :: e in ring ==> e.next != null && e.next in ring
  }

  datatype Size = Tiny | Small | Medium | Large | Bytes(n: nat)

  datatype Released = Pooled | Destroyed | DoubleFree | Unknown

  /** The entries handed out under a name, given the name of each. */
  ghost function Named(out: map<Entry, string>, name: string): set<Entry> { set e | e in out && out[e] == name }

  lemma NamedMore(out: map<Entry, string>, entry: Entry, tag: string, name: string)
    requires entry !in out
    ensures |Named(out[entry := tag], name)| == |Named(out, name)| + if name == tag then 1 else 0
  {
    if name == tag {
      assert Named(out[entry := tag], name) == Named(out, name) + {entry};
    } else {
      assert Named(out[entry := tag], name) == Named(out, name);
    }
  }

  lemma NamedLess(out: map<Entry, string>, entry: Entry, name: string)
    requires entry in out
    ensures |Named(out - {entry}, name)| == |Named(out, name)| - if name == out[entry] then 1 else 0
  {
    if name == out[entry] {
      assert Named(out - {entry}, name) == Named(out, name) - {entry} && entry in Named(out, name);
    } else {
      assert Named(out - {entry}, name) == Named(out, name);
    }
  }

  function Recorded(ledger: map<string, int>, name: string): int { if name in ledger then ledger[name] else 0 }

  class Pool {
    const tiny: Bucket
    const small: Bucket
    const medium: Bucket
    const large: Bucket
    var leakTrack: map<string, int>
    /** The entries handed out, with the names, and all entries not destroyed. */
    ghost var out: map<Entry, string>
    ghost var entries: set<Entry>

    ghost function Buckets(): set<Bucket> { {tiny, small, medium, large} }

    ghost predicate FourBuckets() {
      tiny != small && tiny != medium && tiny != large && small != medium && small != large && medium != large
    }

    /** Free entries are not handed out as well, and every entry is one or the other. */
    ghost predicate Lists()
      reads this`out, this`entries, Buckets(), entries`next
    {
      && FourBuckets() && out.Keys <= entries
      && (forall b, e :: b in Buckets() && e in b.free ==> e in entries && e !in out && e.bucket == b)
      && (forall b :: b in Buckets() ==> b.Linked())
      && (forall e :: e in entries ==> e.bucket in Buckets() && (e in out || e in e.bucket.free))
    }

    /** The ledger says of every name how many arenas are out under it. */
    ghost predicate Ledger()
      reads this`out, this`leakTrack
    {
      forall name :: Recorded(leakTrack, name) == |Named(out, name)|
    }

    ghost predicate Tagged()
      reads this`out, out.Keys`debug
    {
      forall e :: e in out ==> e.debug == out[e]
    }

    ghost predicate Valid()
      reads this, Buckets(), entries`next, out.Keys`debug
    {
      Lists() && Ledger() && Tagged()
    }

    constructor (tiny: Bucket, small: Bucket, medium: Bucket, large: Bucket)
      requires tiny != small && tiny != medium && tiny != large && small != medium && small != large && medium != large
      requires forall b :: b in {tiny, small, medium, large} ==> b.Linked() && b.free == []
      ensures Valid() && out == map[]
      ensures this.tiny == tiny && this.small == small && this.medium == medium && this.large == large
    {
      this.tiny, this.small, this.medium, this.large := tiny, small, medium, large;
      leakTrack, out, entries := map[], map[], {};
    }

    /** The bucket asked for, or the first one that retains enough. */
    function Pick(size: Size): (b: Bucket)
      ensures b in Buckets()
    {
      match size
      case Tiny => tiny
      case Small => small
      case Medium => medium
      case Large => large
      case Bytes(n) =>
        if n <= tiny.retain then tiny
        else if n <= small.retain then small
        else if n <= medium.retain then medium
        else large
    }

    /** A bucket serves a request for it. It serves a number of bytes if it retains that many, or is the last, and no
        bucket before it retains as many. */
    ghost predicate Serves(b: Bucket, size: Size) {
      && (size.Tiny? ==> b == tiny) && (size.Small? ==> b == small)
      && (size.Medium? ==> b == medium) && (size.Large? ==> b == large)
      && (size.Bytes? ==>
            && b in Buckets() && (size.n <= b.retain || b == large)
            && (b == tiny || tiny.retain < size.n) && (b == tiny || b == small || small.retain < size.n)
            && (b == tiny || b == small || b == medium || medium.retain < size.n))
    }

    /** With buckets in order of size, the one picked wastes least among those that retain enough. */
    lemma PickIsTightest(n: nat, b: Bucket)
      requires tiny.retain <= small.retain <= medium.retain <= large.retain && b in Buckets() && n <= b.retain
      ensures n <= Pick(Bytes(n)).retain <= b.retain
    {
    }

    /** Handing out an entry under a name adds one to the ledger. */
    method Track(name: string)
      modifies this`leakTrack
      ensures forall n :: Recorded(leakTrack, n) == old(Recorded(leakTrack, n)) + if n == name then 1 else 0
    {
      if name !in leakTrack { leakTrack := leakTrack[name := 0]; }
      leakTrack := leakTrack[name := leakTrack[name] + 1];
    }

    /** The first free entry of a bucket, or a new one. */
    method Obtain(bucket: Bucket, name: string) returns (entry: Entry)
      requires Lists() && bucket in Buckets()
      modifies this`out, this`entries, bucket, bucket.free`debug
      ensures Lists() && entry !in old(out) && out == old(out)[entry := name] && entry.debug == name
              && entry.bucket == bucket
      ensures if old(bucket.free) == [] then fresh(entry) && bucket.free == []
              else old(bucket.free) == [entry] + bucket.free
    {
      hide Bucket.Linked, Lists;
      Among(bucket);
      bucket.FirstFree();
      if bucket.freeList != null {
        entry := Reuse(bucket, name);
      } else {
        entry := Make(bucket, name);
      }
    }

    lemma Among(bucket: Bucket)
      requires Lists() && bucket in Buckets()
      ensures bucket.Linked()
    {
    }

    method Reuse(bucket: Bucket, name: string) returns (entry: Entry)
      requires Lists() && bucket in Buckets() && bucket.freeList != null
      modifies this`out, bucket, bucket.free`debug
      ensures Lists() && entry !in old(out) && out == old(out)[entry := name] && entry.debug == name
              && entry.bucket == bucket
      ensures old(bucket.free) == [entry] + bucket.free
    {
      hide Bucket.Linked;
      entry := bucket.Pop();
      assert forall e :: e in old(bucket.free) <==> e == entry || e in bucket.free;
      entry.debug := name;
      out := out[entry := name];
    }

    method Make(bucket: Bucket, name: string) returns (entry: Entry)
      requires Lists() && bucket in Buckets()
      modifies this`out, this`entries
      ensures Lists() && fresh(entry) && out == old(out)[entry := name] && entry.debug == name && entry.bucket == bucket
    {
      hide Bucket.Linked;
      entry := new Entry(bucket, name);
      out, entries := out[entry := name], entries + {entry};
    }

    /** Hands out the first free entry of the bucket, or a new one when there is none. */
    method Acquire(size: Size, name: string) returns (entry: Entry)
      requires Valid()
      modifies this`leakTrack, this`out, this`entries, Pick(size), Pick(size).free`debug
      ensures Valid() && entry !in old(out) && out == old(out)[entry := name] && entry.debug == name
              && entry.bucket == Pick(size)
      ensures Serves(entry.bucket, size)
      ensures if old(Pick(size).free) == [] then fresh(entry) && Pick(size).free == []
              else old(Pick(size).free) == [entry] + Pick(size).free
    {
      hide Lists;
      FreeNotOut(Pick(size));
      entry := Obtain(Pick(size), name);
      Track(name);
      forall n
        ensures Recorded(leakTrack, n) == |Named(out, n)|
      {
        NamedMore(old(out), entry, name, n);
      }
    }

    lemma FreeNotOut(b: Bucket)
      requires Lists() && b in Buckets()
      ensures forall e :: e in b.free ==> e !in out
    {
    }

    /** Puts an entry into its bucket's list, or destroys it when the list is full. */
    method PutBack(entry: Entry) returns (r: Released, ghost ring: set<Entry>)
      requires Lists() && entry in entries
      modifies this`out, this`entries, entry.bucket, entry`next
      ensures out == old(out) - {entry} && (entry in old(out) ==> Lists())
      ensures r == if old(entry.bucket.freeListLen) < entry.bucket.max then Pooled else Destroyed
      ensures entry.bucket.free == if r.Pooled? then [entry] + old(entry.bucket.free) else old(entry.bucket.free)
      ensures r.Pooled? ==> entry.bucket.freeList == entry && entry.next == old(entry.bucket.freeList)
      ensures r.Pooled? ==> entry.bucket.freeListLen == old(entry.bucket.freeListLen) + 1
      ensures r.Pooled? && entry !in old(out) ==> Endless(entry, ring)
    {
      hide Bucket.Linked;
      FreeEntry(entry);
      var bucket := entry.bucket;
      ghost var was, again := bucket.free, entry !in out;
      ring := {};
      out := out - {entry};
      if bucket.freeListLen >= bucket.max {
        entries := entries - {entry};
        return Destroyed, ring;
      }
      label Before:
      bucket.Push(entry);
      r := Pooled;
      if again { ring := bucket.Ring@Before(entry); }
    }

    /** Takes an entry back. Releasing one that is not handed out is noticed exactly when nothing is handed out
        under its name. Otherwise the ledger falls short from then on, and an entry that goes into its list a
        second time makes the list endless. */
    method Release(entry: Entry) returns (r: Released, ghost ring: set<Entry>)
      requires Valid() && entry in entries
      modifies this`leakTrack, this`out, this`entries, entry.bucket, entry`next
      ensures (r.DoubleFree? || r.Unknown?) <==> entry !in old(out) && Named(old(out), entry.debug) == {}
      ensures r.Unknown? <==> entry.debug !in old(leakTrack)
      ensures entry in old(out) ==> Valid() && out == old(out) - {entry}
      ensures entry in old(out) ==> r == if old(entry.bucket.freeListLen) < entry.bucket.max then Pooled else Destroyed
      ensures entry in old(out) ==>
                entry.bucket.free == if r.Pooled? then [entry] + old(entry.bucket.free) else old(entry.bucket.free)
      ensures entry !in old(out) ==> out == old(out)
      ensures entry !in old(out) && Named(old(out), entry.debug) != {} ==>
                && Recorded(leakTrack, entry.debug) == |Named(out, entry.debug)| - 1 && !Valid()
                && r == (if old(entry.bucket.freeListLen) < entry.bucket.max then Pooled else Destroyed)
                && (r.Pooled? ==> entry.bucket.freeList == entry && Endless(entry, ring)
                                  && entry.next == old(entry.bucket.freeList)
                                  && entry.bucket.freeListLen == old(entry.bucket.freeListLen) + 1)
    {
      hide Lists;
      Counts(entry);
      FreeEntry(entry);
      ring := {};
      if entry.debug in leakTrack {
        leakTrack := leakTrack[entry.debug := leakTrack[entry.debug] - 1];
        if leakTrack[entry.debug] < 0 { return DoubleFree, ring; }
      } else {
        return Unknown, ring;
      }
      forall n
        ensures entry in out ==> Recorded(leakTrack, n) == |Named(out - {entry}, n)|
      {
        if entry in out { NamedLess(out, entry, n); }
      }
      r, ring := PutBack(entry);
    }

    /** Every entry is handed out or in the list of its bucket, which is linked. */
    lemma FreeEntry(entry: Entry)
      requires Lists() && entry in entries
      ensures entry.bucket in Buckets() && entry.bucket.Linked() && (entry !in out ==> entry in entry.bucket.free)
    {
    }

    lemma Counts(entry: Entry)
      requires Ledger() && Tagged()
      ensures Recorded(leakTrack, entry.debug) == |Named(out, entry.debug)|
      ensures entry in out ==> entry in Named(out, entry.debug)
    {
    }

    /** What the list of a bucket says of its entries. */
    lemma FreeList(b: Bucket)
      requires Valid() && b in Buckets()
      ensures b.freeListLen == |b.free| && (b.free != [] ==> b.freeList == b.free[0])
      ensures out.Keys <= entries && forall e :: e in b.free ==> e in entries && e !in out
    {
    }

    /** Reports a leak exactly when an arena is still handed out; otherwise frees every arena once. */
    method Deinit() returns (leaked: bool, freed: seq<Entry>)
      requires Valid()
      ensures leaked <==> out != map[]
      ensures !leaked ==> Distinct(freed) && forall e :: e in freed <==> e in entries
    {
      leaked := HasLeaks();
      freed := [];
      if leaked { return; }
      var a := tiny.Drain();
      var b := small.Drain();
      var c := medium.Drain();
      var d := large.Drain();
      DistinctConcat(a, b);
      DistinctConcat(a + b, c);
      DistinctConcat(a + b + c, d);
      freed := a + b + c + d;
    }

    method HasLeaks() returns (leaked: bool)
      requires Ledger()
      ensures leaked <==> out != map[]
    {
      leaked := false;
      var names := leakTrack.Keys;
      while names != {}
        invariant names <= leakTrack.Keys
        invariant leaked <==> exists n :: n in leakTrack && n !in names && leakTrack[n] != 0
        decreases |names|
      {
        var name :| name in names;
        if leakTrack[name] != 0 { leaked := true; }
        names := names - {name};
      }
      LeakSeen();
    }

    /** Some count is not zero exactly when some arena is out. */
    lemma LeakSeen()
      requires Ledger()
      ensures (exists n :: n in leakTrack && leakTrack[n] != 0) <==> out != map[]
    {
      if out != map[] {
        var e :| e in out;
        assert e in Named(out, out[e]);
        assert Recorded(leakTrack, out[e]) != 0;
      }
      if n :| n in leakTrack && leakTrack[n] != 0 {
        assert Recorded(leakTrack, n) == |Named(out, n)|;
        assert Named(out, n) != {};
      }
    }
  }

  /** Two arenas are handed out under one name, and the first is released twice: the second release goes through,
      its list leads back to itself, and the ledger reads zero with an arena still out. */
  method SecondReleaseUnnoticed(pool: Pool, name: string) returns (a: Entry, b: Entry, second: Released)
    requires pool.Valid() && pool.out == map[] && pool.tiny.free == [] && pool.tiny.max >= 2
    modifies pool, pool.tiny
    ensures second.Pooled? && pool.tiny.freeList == a && a.next == a && pool.tiny.freeListLen == 2
    ensures b in pool.out && Recorded(pool.leakTrack, name) == 0
  {
    hide Pool.Valid, Named, Recorded, Endless;
    a := pool.Acquire(Tiny, name);
    b := pool.Acquire(Tiny, name);
    pool.FreeList(pool.tiny);
    ghost var ring;
    var first;
    first, ring := pool.Release(a);
    pool.FreeList(pool.tiny);
    OnlyNamed(pool.out, b, name);
    second, ring := pool.Release(a);
  }

  lemma OnlyNamed(out: map<Entry, string>, e: Entry, name: string)
    requires out == map[e := name]
    ensures Named(out, name) == {e} && |Named(out, name)| == 1
  {
    assert Named(out, name) == {e};
  }
}
