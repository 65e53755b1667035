/** The only place that sends output events, and the record of what is held: 256 key bits in eight words, a mouse
    mask, a count, a dirty flag, and the copy in shared memory from which the guardian process releases. A 32-bit
    word is the set of positions of its one bits. */
module InputSender {
  import opened Input
  import opened World

  const WORDS: nat := 8
  const WORD_BITS: nat := 32
  const KEYS: nat := 256
  const MAGIC: nat := 0x4448_4C54

  predicate WordOk(w: set<nat>) { forall b :: b in w ==> b < WORD_BITS }

  /** The cross-process block. */
  class HeldShared {
    var magic: nat
    var mouseMask: set<nat>
    const keyBits: array<set<nat>>
    const keyScan: array<nat>

    ghost predicate Valid()
      reads this, keyBits, keyScan
    {
      && keyBits.Length == WORDS && keyScan.Length == KEYS
      && (forall w :: 0 <= w < WORDS ==> WordOk(keyBits[w]))
    }

    /** What the block says is held. */
    ghost function Recorded(): Held
      reads this, keyBits, keyScan
    {
      if keyBits.Length == WORDS && keyScan.Length == KEYS then Held(mouseMask, KeyMap(keyBits[..], keyScan[..]))
      else NOTHING
    }

    constructor ()
      ensures Valid() && fresh(keyBits) && fresh(keyScan)
      ensures magic == MAGIC && Recorded() == NOTHING
    {
      magic, mouseMask := MAGIC, {};
      keyBits := new set<nat>[WORDS](_ => {});
      keyScan := new nat[KEYS](_ => 0);
      new;
      assert KeyMap(keyBits[..], keyScan[..]) == map[];
    }
  }

  /** The keys whose bit is set, with their metadata. */
  ghost function KeyMap(words: seq<set<nat>>, meta: seq<nat>): map<nat, nat>
    requires |words| == WORDS && |meta| == KEYS
  {
    map vk: nat | vk < KEYS && vk % WORD_BITS in words[vk / WORD_BITS] :: meta[vk]
  }

  class Sender {
    const shared: HeldShared
    const heldKeys: array<set<nat>>
    const keyMeta: array<nat>
    var heldMouse: set<nat>
    var heldKeyCount: int
    var dirty: bool
    var calls: nat
    var requested: nat
    var accepted: nat
    var failedCalls: nat
    const world: World
    /** Every event Windows has accepted, and when it was given to Windows. */
    ghost var delivered: seq<Input>
    ghost var stamps: seq<int>

    ghost predicate Shape()
      reads this`heldMouse, this`heldKeyCount, this`dirty, heldKeys, keyMeta, shared, shared.keyBits, shared.keyScan
    {
      && heldKeys.Length == WORDS && keyMeta.Length == KEYS
      && shared.Valid()
      && heldKeys != shared.keyBits && keyMeta != shared.keyScan
      && (forall w :: 0 <= w < WORDS ==> WordOk(heldKeys[w]))
      && 0 !in heldKeys[0]
      && (forall b :: b in heldMouse ==> b < 5)
      && heldKeyCount == |Now().keys|
      && (!dirty ==> shared.Recorded() == Now())
    }

    /** The state between calls: the shared block is up to date. */
    ghost predicate Valid()
      reads this`heldMouse, this`heldKeyCount, this`dirty, heldKeys, keyMeta, shared, shared.keyBits, shared.keyScan
    {
      Shape() && !dirty
    }

    ghost function Now(): Held
      reads this`heldMouse, heldKeys, keyMeta
    {
      if heldKeys.Length == WORDS && keyMeta.Length == KEYS then Held(heldMouse, KeyMap(heldKeys[..], keyMeta[..]))
      else NOTHING
    }

    lemma UpToDate()
      requires Valid()
      ensures shared.Recorded() == Now() && ValidHeld(Now())
    {
    }

    constructor (block: HeldShared, w: World)
      requires block.Valid() && block.Recorded() == NOTHING
      ensures Valid() && shared == block && world == w && Now() == NOTHING && delivered == [] && stamps == []
      ensures fresh(heldKeys) && fresh(keyMeta)
    {
      shared, world := block, w;
      heldKeys := new set<nat>[WORDS](_ => {});
      keyMeta := new nat[KEYS](_ => 0);
      heldMouse, heldKeyCount, dirty := {}, 0, false;
      calls, requested, accepted, failedCalls := 0, 0, 0, 0;
      delivered, stamps := [], [];
      new;
      assert KeyMap(heldKeys[..], keyMeta[..]) == map[];
    }

    method SetMouseIf(c: bool, bit: nat, down: bool)
      modifies this`heldMouse, this`dirty
      ensures heldMouse == SetBitIf(old(heldMouse), c, bit, down)
      ensures !dirty ==> !old(dirty) && heldMouse == old(heldMouse)
    {
      if c {
        var before := heldMouse;
        heldMouse := if down then heldMouse + {bit} else heldMouse - {bit};
        dirty := dirty || before != heldMouse;
      }
    }

    method TrackMouseFlags(flags: set<MouseFlag>, data: nat)
      modifies this`heldMouse, this`dirty
      ensures heldMouse == TrackMouse(old(heldMouse), flags, data)
      ensures !dirty ==> !old(dirty) && heldMouse == old(heldMouse)
    {
      hide SetBitIf;
      SetMouseIf(LeftDown in flags, 0, true);
      SetMouseIf(LeftUp in flags, 0, false);
      SetMouseIf(RightDown in flags, 1, true);
      SetMouseIf(RightUp in flags, 1, false);
      SetMouseIf(MiddleDown in flags, 2, true);
      SetMouseIf(MiddleUp in flags, 2, false);
      var x := XDown in flags || XUp in flags;
      SetMouseIf(x && data % 2 == 1, 3, XDown in flags);
      SetMouseIf(x && data / 2 % 2 == 1, 4, XDown in flags);
    }

    method TrackInput(e: Input)
      requires Shape()
      modifies this`heldMouse, this`heldKeyCount, this`dirty, heldKeys, keyMeta
      ensures Shape() && Now() == Track(old(Now()), e)
    {
      match e
      case MouseInput(flags, data, _) =>
        TrackMouseStaysLow(heldMouse, flags, data);
        TrackMouseFlags(flags, data);
      case KeyInput(vk16, _, up, _, _, _) =>
        var vk := vk16 % 256;
        if vk == 0 { return; }
        var word, bit := vk / WORD_BITS, vk % WORD_BITS;
        var was := bit in heldKeys[word];
        if !up && !was {
          PressBit(e, vk);
        } else if up && was {
          ReleaseBit(vk);
        }
    }

    /** track, for a key that goes down. */
    method PressBit(e: Input, vk: nat)
      requires Shape() && e.KeyInput? && 1 <= vk < KEYS && vk !in Now().keys
      modifies this`heldKeyCount, this`dirty, heldKeys, keyMeta
      ensures Shape() && Now() == old(Now()).(keys := old(Now()).keys[vk := MetaOf(e)])
    {
      var word, bit := vk / WORD_BITS, vk % WORD_BITS;
      ghost var words, meta := heldKeys[..], keyMeta[..];
      SetKeyBit(words, meta, vk, MetaOf(e));
      heldKeys[word] := heldKeys[word] + {bit};
      heldKeyCount := heldKeyCount + 1;
      keyMeta[vk] := MetaOf(e);
      dirty := true;
      assert heldKeys[..] == words[word := words[word] + {bit}];
      assert keyMeta[..] == meta[vk := MetaOf(e)];
    }

    /** track, for a key that goes up. */
    method ReleaseBit(vk: nat)
      requires Shape() && 1 <= vk < KEYS && vk in Now().keys
      modifies this`heldKeyCount, this`dirty, heldKeys
      ensures Shape() && Now() == old(Now()).(keys := old(Now()).keys - {vk})
    {
      var word, bit := vk / WORD_BITS, vk % WORD_BITS;
      ghost var words, meta := heldKeys[..], keyMeta[..];
      ClearKeyBit(words, meta, vk);
      heldKeys[word] := heldKeys[word] - {bit};
      heldKeyCount := heldKeyCount - 1;
      dirty := true;
      assert heldKeys[..] == words[word := words[word] - {bit}];
    }

    method Publish()
      requires Shape()
      modifies this`dirty, shared`mouseMask, shared.keyBits, shared.keyScan
      ensures Valid() && Now() == old(Now())
    {
      hide Shape, Valid, Now, HeldShared.Recorded, HeldShared.Valid;
      var done := PublishSteps(KEYS + WORDS + 1);
    }

    /** publish, or only its first stores if the process dies in the middle. Metadata first, then the bits: the
        guardian reads bits, then metadata. So even then every key in the block carries metadata of its own, and no
        key is missing that was recorded before and is held now. */
    method PublishSteps(stores: nat) returns (done: bool)
      requires Shape()
      modifies this`dirty, shared`mouseMask, shared.keyBits, shared.keyScan
      ensures Now() == old(Now()) && shared.Valid() && shared.magic == old(shared.magic)
      ensures done ==> Valid()
      ensures Between(old(shared.Recorded()), Now(), shared.Recorded())
      ensures stores >= KEYS + WORDS + 1 ==> done
    {
      hide KeyMap, Between;
      ghost var words, scans, mouse := shared.keyBits[..], shared.keyScan[..], shared.mouseMask;
      dirty := false;
      var left;
      done, left := PublishScans(stores);
      if done { done, left := PublishBits(left, words); }
      done := done && left > 0;
      if done { shared.mouseMask := heldMouse; }
      PartIsBetween(words, scans, heldKeys[..], keyMeta[..], shared.keyBits[..], shared.keyScan[..],
                    mouse, heldMouse, shared.mouseMask);
      if done {
        assert shared.keyBits[..] == heldKeys[..];
        SameKeyMap(heldKeys[..], keyMeta[..], shared.keyScan[..]);
      }
    }

    method PublishScans(stores: nat) returns (done: bool, left: nat)
      requires heldKeys.Length == WORDS && keyMeta.Length == KEYS && shared.keyScan.Length == KEYS
      requires keyMeta != shared.keyScan && forall w :: 0 <= w < WORDS ==> WordOk(heldKeys[w])
      modifies shared.keyScan
      ensures forall vk :: 0 <= vk < KEYS ==> ScanIsOwn(vk, old(shared.keyScan[vk]), shared.keyScan[vk])
      ensures done ==> forall vk :: 0 <= vk < KEYS && Holds(vk) ==> shared.keyScan[vk] == keyMeta[vk]
      ensures left <= stores && (stores >= KEYS ==> done && left >= stores - KEYS)
    {
      hide WordOk, Holds, ScanIsOwn;
      left, done := stores, true;
      ghost var scans := shared.keyScan[..];
      OwnAtFirst(scans);
      for w := 0 to WORDS
        invariant done && left <= stores && left + w * WORD_BITS >= stores
        invariant forall vk :: 0 <= vk < KEYS ==> ScanIsOwn(vk, scans[vk], shared.keyScan[vk])
        invariant forall vk :: 0 <= vk < w * WORD_BITS && Holds(vk) ==> shared.keyScan[vk] == keyMeta[vk]
      {
        ghost var before := shared.keyScan[..];
        done, left := PublishWord(w, left);
        OwnTwice(scans, before, shared.keyScan[..]);
        if !done { return; }
      }
    }

    predicate Holds(vk: int)
      requires 0 <= vk < KEYS && heldKeys.Length == WORDS
      reads heldKeys
    {
      vk % WORD_BITS in heldKeys[vk / WORD_BITS]
    }

    /** What the block has for a key: what it had, or what the key has now. */
    predicate ScanIsOwn(vk: int, was: nat, is_: nat)
      requires 0 <= vk < KEYS && heldKeys.Length == WORDS && keyMeta.Length == KEYS
      reads heldKeys, keyMeta
    {
      is_ == was || (Holds(vk) && is_ == keyMeta[vk])
    }

    lemma OwnAtFirst(scans: seq<nat>)
      requires |scans| == KEYS && heldKeys.Length == WORDS && keyMeta.Length == KEYS
      ensures forall vk :: 0 <= vk < KEYS ==> ScanIsOwn(vk, scans[vk], scans[vk])
    {
    }

    lemma OwnTwice(a: seq<nat>, b: seq<nat>, c: seq<nat>)
      requires |a| == |b| == |c| == KEYS && heldKeys.Length == WORDS && keyMeta.Length == KEYS
      requires forall vk :: 0 <= vk < KEYS ==> ScanIsOwn(vk, a[vk], b[vk]) && ScanIsOwn(vk, b[vk], c[vk])
      ensures forall vk :: 0 <= vk < KEYS ==> ScanIsOwn(vk, a[vk], c[vk])
      ensures forall vk :: 0 <= vk < KEYS && Holds(vk) && b[vk] == keyMeta[vk] ==> c[vk] == keyMeta[vk]
    {
    }

    method PublishWord(w: nat, stores: nat) returns (done: bool, left: nat)
      requires w < WORDS && heldKeys.Length == WORDS && keyMeta.Length == KEYS && WordOk(heldKeys[w])
      requires shared.keyScan.Length == KEYS && keyMeta != shared.keyScan
      modifies shared.keyScan
      ensures forall vk :: 0 <= vk < KEYS ==> ScanIsOwn(vk, old(shared.keyScan[vk]), shared.keyScan[vk])
      ensures done ==> forall vk :: w * WORD_BITS <= vk < (w + 1) * WORD_BITS && Holds(vk) ==>
                                      shared.keyScan[vk] == keyMeta[vk]
      ensures left <= stores && (stores >= WORD_BITS ==> done) && (done ==> left + WORD_BITS >= stores)
    {
      var bits := heldKeys[w];
      left, done := stores, true;
      var b := 0;
      while b < WORD_BITS && bits != {}
        invariant b <= WORD_BITS && done && left <= stores && left + b >= stores
        invariant forall x :: x in bits <==> x in heldKeys[w] && x >= b
        invariant forall x :: x in heldKeys[w] && x < b ==>
                                shared.keyScan[w * WORD_BITS + x] == keyMeta[w * WORD_BITS + x]
        invariant forall vk :: 0 <= vk < KEYS ==> ScanIsOwn(vk, old(shared.keyScan[vk]), shared.keyScan[vk])
      {
        if b in bits {
          if left == 0 { return false, left; }
          var vk := w * WORD_BITS + b;
          assert vk / WORD_BITS == w && vk % WORD_BITS == b;
          shared.keyScan[vk] := keyMeta[vk];
          left := left - 1;
          bits := bits - {b};
        }
        b := b + 1;
      }
      forall vk | w * WORD_BITS <= vk < (w + 1) * WORD_BITS && Holds(vk)
        ensures shared.keyScan[vk] == keyMeta[vk]
      {
        assert vk == w * WORD_BITS + vk % WORD_BITS;
      }
    }

    method PublishBits(stores: nat, ghost words: seq<set<nat>>) returns (done: bool, left: nat)
      requires heldKeys.Length == WORDS && shared.keyBits.Length == WORDS && heldKeys != shared.keyBits
      requires shared.keyBits[..] == words
      modifies shared.keyBits
      ensures forall w :: 0 <= w < WORDS ==> shared.keyBits[w] == words[w] || shared.keyBits[w] == heldKeys[w]
      ensures done ==> forall w :: 0 <= w < WORDS ==> shared.keyBits[w] == heldKeys[w]
      ensures left <= stores && (stores >= WORDS ==> done && left == stores - WORDS)
    {
      left, done := stores, true;
      for w := 0 to WORDS
        invariant done && left == stores - w
        invariant forall i :: 0 <= i < w ==> shared.keyBits[i] == heldKeys[i]
        invariant forall i :: w <= i < WORDS ==> shared.keyBits[i] == words[i]
      {
        if left == 0 { return false, left; }
        shared.keyBits[w] := heldKeys[w];
        left := left - 1;
      }
    }

    /** SendInput: Windows takes a prefix of what it is given. */
    method SendInput(es: seq<Input>) returns (ok: nat, ghost at: int)
      modifies this`delivered, this`stamps, world`clock
      ensures ok <= |es| && delivered == old(delivered) + es[..ok]
      ensures old(world.clock) <= at <= world.clock && stamps == old(stamps) + Stamps(at, ok)
    {
      at := world.Now();
      var k: int := *;
      ok := if 0 <= k <= |es| then k else |es|;
      delivered, stamps := delivered + es[..ok], stamps + Stamps(at, ok);
    }

    /** Only what Windows accepted changes the record, and the shared block follows. */
    method Send(es: seq<Input>) returns (ok: nat, ghost at: int)
      requires Valid()
      modifies this, heldKeys, keyMeta, shared`mouseMask, shared.keyBits, shared.keyScan, world`clock
      ensures Valid() && ok <= |es|
      ensures Now() == TrackAll(old(Now()), es[..ok]) && shared.Recorded() == Now()
      ensures delivered == old(delivered) + es[..ok] && stamps == old(stamps) + Stamps(at, ok)
      ensures old(world.clock) <= at <= world.clock
      ensures requested == old(requested) + |es| && accepted == old(accepted) + ok
      ensures calls == old(calls) + (if es == [] then 0 else 1)
      ensures failedCalls == old(failedCalls) + (if ok != |es| then 1 else 0)
    {
      hide Shape, TrackAll, Now, ValidHeld, HeldShared.Recorded;
      UpToDate();
      TrackNone(Now(), es[..0]);
      if |es| == 0 { return 0, world.clock; }
      ok, at := SendInput(es);
      calls := calls + 1;
      requested := requested + |es|;
      accepted := accepted + ok;
      if ok != |es| { failedCalls := failedCalls + 1; }
      TrackPrefix(es, ok);
      if dirty { Publish(); }
      UpToDate();
    }

    method TrackPrefix(es: seq<Input>, n: nat)
      requires Shape() && n <= |es|
      modifies this`heldMouse, this`heldKeyCount, this`dirty, heldKeys, keyMeta
      ensures Shape() && Now() == TrackAll(old(Now()), es[..n])
    {
      for i := 0 to n
        invariant Shape() && Now() == TrackAll(old(Now()), es[..i])
      {
        TrackSnoc(old(Now()), es, i);
        TrackInput(es[i]);
      }
    }

    /** The buffer of releaseAll. */
    method BuildRelease() returns (buf: seq<Input>)
      requires Valid()
      ensures buf == ReleaseList(Now())
    {
      hide Shape, Now, KeyUps, ButtonUps, Cap;
      buf := [];
      ghost var keys, mouse := Now().keys, Now().mouse;
      ghost var ups := ButtonUps(mouse, 0);
      var w := 0;
      assert buf + (KeyUps(keys, 0) + ups) == KeyUps(keys, 0) + ups;
      while w < WORDS
        invariant w <= WORDS && |buf| <= MAX_RELEASE
        invariant Cap(buf + (KeyUps(keys, w * WORD_BITS) + ups)) == Cap(KeyUps(keys, 0) + ups)
      {
        buf := BuildWord(buf, w, ups);
        w := w + 1;
      }
      KeyUpsStep(keys, KEYS);
      assert buf + (KeyUps(keys, KEYS) + ups) == buf + ups;
      buf := BuildButtons(buf);
    }

    method BuildWord(buf0: seq<Input>, w: nat, ghost ups: seq<Input>) returns (buf: seq<Input>)
      requires Valid() && w < WORDS && |buf0| <= MAX_RELEASE
      ensures |buf| <= MAX_RELEASE
      ensures var keys := Now().keys;
              Cap(buf + (KeyUps(keys, (w + 1) * WORD_BITS) + ups)) == Cap(buf0 + (KeyUps(keys, w * WORD_BITS) + ups))
    {
      buf := buf0;
      ghost var keys := Now().keys;
      var b := 0;
      hide Cap, KeyUps, KeyUp;
      while b < WORD_BITS
        invariant b <= WORD_BITS && |buf| <= MAX_RELEASE
        invariant Cap(buf + (KeyUps(keys, w * WORD_BITS + b) + ups)) == Cap(buf0 + (KeyUps(keys, w * WORD_BITS) + ups))
      {
        var vk := w * WORD_BITS + b;
        KeyUpsStep(keys, vk);
        if b in heldKeys[w] {
          var meta := keyMeta[vk];
          var up := MakeKeyInput(vk, meta % 256, meta / 256 % 2 == 1, true, ModeOfMeta(meta), TAG);
          IsKeyUp(vk, meta);
          CapStep(buf, up, KeyUps(keys, vk + 1), ups);
          if |buf| < MAX_RELEASE { buf := buf + [up]; }
        }
        b := b + 1;
      }
    }

    method BuildButtons(buf0: seq<Input>) returns (buf: seq<Input>)
      requires Valid() && |buf0| <= MAX_RELEASE
      ensures buf == Cap(buf0 + ButtonUps(Now().mouse, 0))
    {
      buf := buf0;
      ghost var mouse := Now().mouse;
      var b := 0;
      while b < 5
        invariant b <= 5 && |buf| <= MAX_RELEASE
        invariant Cap(buf + ButtonUps(mouse, b)) == Cap(buf0 + ButtonUps(mouse, 0))
      {
        hide Cap, ButtonUps;
        ButtonUpsStep(mouse, b);
        if b in heldMouse {
          CapStep(buf, ButtonUp(b), ButtonUps(mouse, b + 1), []);
          if |buf| < MAX_RELEASE { buf := buf + [MakeMouseInput(ButtonOfBit(b), false, 0, TAG)]; }
        } else {
          assert [] + ButtonUps(mouse, b + 1) == ButtonUps(mouse, b + 1);
        }
        b := b + 1;
      }
      assert buf + [] == buf;
    }

    /** Whatever Windows accepts, the record afterwards is the old one with the whole release list applied. What
        Windows was really given is that list too, unless the retry fell short. */
    method ReleaseAll() returns (ok: nat, ghost at: seq<int>)
      requires Valid()
      modifies this, heldKeys, keyMeta, shared`mouseMask, shared.keyBits, shared.keyScan, world`clock
      ensures Valid() && shared.Recorded() == Now()
      ensures Now() == TrackAll(old(Now()), ReleaseList(old(Now())))
      ensures Now() == NOTHING <==> Size(old(Now())) <= MAX_RELEASE
      ensures ok <= |ReleaseList(old(Now()))| && delivered == old(delivered) + ReleaseList(old(Now()))[..ok]
      ensures |at| == ok && stamps == old(stamps) + at && old(world.clock) <= world.clock
      ensures forall t :: t in at ==> old(world.clock) <= t <= world.clock
      ensures Now() == TrackAll(old(Now()), ReleaseList(old(Now()))[..ok]) <==> ok == |ReleaseList(old(Now()))|
    {
      hide Shape, TrackAll, Now, ReleaseList, ValidHeld, HeldShared.Recorded;
      ok, at := ReleaseOrRetry();
      PartReleasesAllIff(old(Now()), ok);
    }

    /** releaseAll: one call, and a second one for what was not accepted. */
    method ReleaseOrRetry() returns (ok: nat, ghost at: seq<int>)
      requires Valid()
      modifies this, heldKeys, keyMeta, shared`mouseMask, shared.keyBits, shared.keyScan, world`clock
      ensures Valid() && shared.Recorded() == Now() && ValidHeld(old(Now()))
      ensures Now() == TrackAll(old(Now()), ReleaseList(old(Now())))
      ensures Now() == NOTHING <==> Size(old(Now())) <= MAX_RELEASE
      ensures ok <= |ReleaseList(old(Now()))| && delivered == old(delivered) + ReleaseList(old(Now()))[..ok]
      ensures |at| == ok && stamps == old(stamps) + at && old(world.clock) <= world.clock
      ensures forall t :: t in at ==> old(world.clock) <= t <= world.clock
    {
      hide Shape, TrackAll, Now, ReleaseList, ValidHeld, HeldShared.Recorded;
      UpToDate();
      ReleaseIsCompleteIff(Now());
      ghost var before, sent := Now(), delivered;
      var buf := BuildRelease();
      if |buf| == 0 {
        TrackNone(before, buf);
        assert sent == sent + buf[..0];
        return 0, [];
      }
      ghost var t;
      ok, t := Send(buf);
      at := Stamps(t, ok);
      assert buf[..|buf|] == buf;
      if ok != |buf| {
        var more;
        more, t := Retry(before, buf, ok);
        at := at + Stamps(t, more);
        assert buf[..ok] + buf[ok..][..more] == buf[..ok + more];
        assert delivered == sent + (buf[..ok] + buf[ok..][..more]);
        ok := ok + more;
      }
      UpToDate();
    }

    /** The retry of releaseAll: what is still owed is sent again, and everything is taken as released. */
    method Retry(ghost before: Held, buf: seq<Input>, ok: nat) returns (more: nat, ghost at: int)
      requires Valid() && ok <= |buf| && ValidHeld(before)
      requires buf == ReleaseList(before) && Now() == TrackAll(before, buf[..ok])
      modifies this, heldKeys, keyMeta, shared`mouseMask, shared.keyBits, shared.keyScan, world`clock
      ensures Valid() && Now() == TrackAll(before, buf)
      ensures more <= |buf| - ok && delivered == old(delivered) + buf[ok..][..more]
      ensures old(world.clock) <= at <= world.clock && stamps == old(stamps) + Stamps(at, more)
    {
      hide Shape, TrackAll, Now, ReleaseList, ValidHeld, HeldShared.Recorded;
      RetryIsHarmless(before, ok);
      more, at := SendInput(buf[ok..]);
      TrackAndPublish(buf);
    }

    method TrackAndPublish(es: seq<Input>)
      requires Shape()
      modifies this`heldMouse, this`heldKeyCount, this`dirty, heldKeys, keyMeta
      modifies shared`mouseMask, shared.keyBits, shared.keyScan
      ensures Valid() && Now() == TrackAll(old(Now()), es)
    {
      hide Shape, TrackAll, Now, HeldShared.Recorded;
      TrackPrefix(es, |es|);
      assert es[..|es|] == es;
      Publish();
    }
  }

  /** The same time for each of n events. */
  function Stamps(at: int, n: nat): (r: seq<int>)
    ensures |r| == n && forall t :: t in r ==> t == at
  {
    seq(n, _ => at)
  }

  lemma RetryIsHarmless(h: Held, ok: nat)
    requires ValidHeld(h) && ok <= |ReleaseList(h)|
    ensures TrackAll(TrackAll(h, ReleaseList(h)[..ok]), ReleaseList(h)) == TrackAll(h, ReleaseList(h))
  {
    ReleaseListIsUps(h, 0, 0);
    ReleasingAgain(h, ReleaseList(h), ok);
  }

  lemma TrackNone(h: Held, es: seq<Input>)
    requires es == []
    ensures TrackAll(h, es) == h
  {
  }

  // ---------------------------------------------------------------- the bit words

  lemma SameKeyMap(words: seq<set<nat>>, a: seq<nat>, b: seq<nat>)
    requires |words| == WORDS && |a| == |b| == KEYS
    requires forall vk :: 0 <= vk < KEYS && vk % WORD_BITS in words[vk / WORD_BITS] ==> a[vk] == b[vk]
    ensures KeyMap(words, a) == KeyMap(words, b)
  {
  }

  lemma SetKeyBit(words: seq<set<nat>>, meta: seq<nat>, vk: nat, m: nat)
    requires |words| == WORDS && |meta| == KEYS && vk < KEYS
    requires forall w :: 0 <= w < WORDS ==> WordOk(words[w])
    requires vk !in KeyMap(words, meta)
    ensures var w := vk / WORD_BITS;
            var after := KeyMap(words[w := words[w] + {vk % WORD_BITS}], meta[vk := m]);
            after == KeyMap(words, meta)[vk := m] && |after| == |KeyMap(words, meta)| + 1
  {
    var w := vk / WORD_BITS;
    var after := KeyMap(words[w := words[w] + {vk % WORD_BITS}], meta[vk := m]);
    forall k: nat | k < KEYS && k != vk ensures k in after <==> k in KeyMap(words, meta) {
      assert k == WORD_BITS * (k / WORD_BITS) + k % WORD_BITS;
    }
    assert after == KeyMap(words, meta)[vk := m];
  }

  lemma ClearKeyBit(words: seq<set<nat>>, meta: seq<nat>, vk: nat)
    requires |words| == WORDS && |meta| == KEYS && vk < KEYS
    requires vk in KeyMap(words, meta)
    ensures var w := vk / WORD_BITS;
            var after := KeyMap(words[w := words[w] - {vk % WORD_BITS}], meta);
            after == KeyMap(words, meta) - {vk} && |after| == |KeyMap(words, meta)| - 1
  {
    var w := vk / WORD_BITS;
    var after := KeyMap(words[w := words[w] - {vk % WORD_BITS}], meta);
    forall k: nat | k < KEYS && k != vk ensures k in after <==> k in KeyMap(words, meta) {
      assert k == WORD_BITS * (k / WORD_BITS) + k % WORD_BITS;
    }
    assert after == KeyMap(words, meta) - {vk};
    assert KeyMap(words, meta) == after[vk := meta[vk]];
  }

  lemma TrackMouseStaysLow(m: set<nat>, flags: set<MouseFlag>, data: nat)
    requires forall b :: b in m ==> b < 5
    ensures forall b :: b in TrackMouse(m, flags, data) ==> b < 5
  {
  }

  /** A record on the way from one to another: each key has the metadata of one of the two, and what both hold is
      never missing. */
  ghost predicate Between(was: Held, now: Held, rec: Held) {
    && (rec.mouse == was.mouse || rec.mouse == now.mouse)
    && (forall vk :: vk in rec.keys ==>
          (vk in was.keys && rec.keys[vk] == was.keys[vk]) || (vk in now.keys && rec.keys[vk] == now.keys[vk]))
    && (forall vk :: vk in was.keys && vk in now.keys ==> vk in rec.keys)
  }

  lemma PartIsBetween(words: seq<set<nat>>, scans: seq<nat>, held: seq<set<nat>>, meta: seq<nat>,
                      bits: seq<set<nat>>, part: seq<nat>, m: set<nat>, heldM: set<nat>, partM: set<nat>)
    requires |words| == |held| == |bits| == WORDS && |scans| == |meta| == |part| == KEYS
    requires partM == m || partM == heldM
    requires forall w :: 0 <= w < WORDS ==> bits[w] == words[w] || bits[w] == held[w]
    requires forall vk :: 0 <= vk < KEYS ==>
               part[vk] == scans[vk] || (vk % WORD_BITS in held[vk / WORD_BITS] && part[vk] == meta[vk])
    requires bits == words
             || forall vk :: 0 <= vk < KEYS && vk % WORD_BITS in held[vk / WORD_BITS] ==> part[vk] == meta[vk]
    ensures Between(Held(m, KeyMap(words, scans)), Held(heldM, KeyMap(held, meta)), Held(partM, KeyMap(bits, part)))
  {
  }

  // ---------------------------------------------------------------- the release buffer

  lemma ButtonUpsStep(mouse: set<nat>, b: nat)
    requires b < 5
    ensures ButtonUps(mouse, b) == (if b in mouse then [ButtonUp(b)] else []) + ButtonUps(mouse, b + 1)
  {
  }

  lemma IsKeyUp(vk: nat, meta: nat)
    ensures KeyUp(vk, meta) == MakeKeyInput(vk, meta % 256, meta / 256 % 2 == 1, true, ModeOfMeta(meta), TAG)
  {
  }

  /** An event that does not fit the buffer is dropped, and so is everything after it. */
  lemma CapStep(buf: seq<Input>, e: Input, more: seq<Input>, tail: seq<Input>)
    requires |buf| <= MAX_RELEASE
    ensures var next := if |buf| < MAX_RELEASE then buf + [e] else buf;
            Cap(next + (more + tail)) == Cap(buf + (([e] + more) + tail))
            && (tail == [] ==> Cap(next + more) == Cap(buf + ([e] + more)))
  {
    assert buf + [e] + (more + tail) == buf + (([e] + more) + tail);
    assert buf + [e] + more == buf + ([e] + more);
  }
}
