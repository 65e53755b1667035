/** What the guardian process does with the shared block when the program dies: it releases everything recorded
    there. */
module Guardian {
  import opened Input
  import opened InputSender

  /** Emits exactly the list that releaseAll would build from the same record, in the same order, and clears it. */
  method ReleaseHeldFrom(h: HeldShared) returns (buf: seq<Input>)
    requires h.Valid()
    modifies h`mouseMask, h.keyBits
    ensures h.Valid()
    ensures h.magic != MAGIC ==> buf == [] && h.Recorded() == old(h.Recorded())
    ensures h.magic == MAGIC ==> buf == ReleaseList(old(h.Recorded())) && h.Recorded() == NOTHING
  {
    hide KeyUps, ButtonUps, Cap, KeyMap, HeldShared.Recorded;
    buf := [];
    if h.magic != MAGIC { return; }
    ghost var held := h.Recorded();
    IsRecorded(h);
    ghost var ups := ButtonUps(held.mouse, 0);
    var w := 0;
    assert buf + (KeyUps(held.keys, 0) + ups) == KeyUps(held.keys, 0) + ups;
    while w < WORDS
      invariant w <= WORDS && |buf| <= MAX_RELEASE
      invariant forall i :: 0 <= i < w ==> h.keyBits[i] == {}
      invariant forall i :: w <= i < WORDS ==> h.keyBits[i] == old(h.keyBits[i])
      invariant h.mouseMask == old(h.mouseMask)
      invariant Cap(buf + (KeyUps(held.keys, w * WORD_BITS) + ups)) == Cap(KeyUps(held.keys, 0) + ups)
    {
      var bits := h.keyBits[w];
      WordOfMap(old(h.keyBits[..]), h.keyScan[..], w);
      h.keyBits[w] := {};
      buf := ReleaseWord(h, buf, w, bits, held.keys, ups);
      w := w + 1;
    }
    KeyUpsStep(held.keys, KEYS);
    assert buf + (KeyUps(held.keys, KEYS) + ups) == buf + ups;
    var mask := h.mouseMask;
    h.mouseMask := {};
    buf := ReleaseButtons(buf, mask);
    NothingRecorded(h);
  }

  lemma IsRecorded(h: HeldShared)
    requires h.Valid()
    ensures h.Recorded() == Held(h.mouseMask, KeyMap(h.keyBits[..], h.keyScan[..]))
  {
  }

  lemma NothingRecorded(h: HeldShared)
    requires h.Valid() && h.mouseMask == {} && forall i :: 0 <= i < WORDS ==> h.keyBits[i] == {}
    ensures h.Recorded() == NOTHING
  {
    assert KeyMap(h.keyBits[..], h.keyScan[..]) == map[];
  }

  /** The bits of word w are the keys of that word, with their recorded metadata. */
  lemma WordOfMap(words: seq<set<nat>>, meta: seq<nat>, w: nat)
    requires |words| == WORDS && |meta| == KEYS && w < WORDS
    ensures forall b: nat {:trigger b in words[w]} :: b < WORD_BITS ==>
              var vk := w * WORD_BITS + b;
              (b in words[w] <==> vk in KeyMap(words, meta))
              && (b in words[w] ==> KeyMap(words, meta)[vk] == meta[vk])
  {
    forall b: nat | b < WORD_BITS
      ensures var vk := w * WORD_BITS + b;
              (b in words[w] <==> vk in KeyMap(words, meta))
              && (b in words[w] ==> KeyMap(words, meta)[vk] == meta[vk])
    {
      var vk := w * WORD_BITS + b;
      assert vk / WORD_BITS == w && vk % WORD_BITS == b;
    }
  }

  method ReleaseWord(h: HeldShared, buf0: seq<Input>, w: nat, word: set<nat>,
                     ghost keys: map<nat, nat>, ghost ups: seq<Input>) returns (buf: seq<Input>)
    requires h.keyScan.Length == KEYS && w < WORDS && |buf0| <= MAX_RELEASE && WordOk(word)
    requires forall b: nat {:trigger b in word} :: b < WORD_BITS ==>
               (b in word <==> w * WORD_BITS + b in keys)
               && (b in word ==> keys[w * WORD_BITS + b] == h.keyScan[w * WORD_BITS + b])
    ensures |buf| <= MAX_RELEASE
    ensures Cap(buf + (KeyUps(keys, (w + 1) * WORD_BITS) + ups)) == Cap(buf0 + (KeyUps(keys, w * WORD_BITS) + ups))
  {
    hide Cap, KeyUps, KeyUp;
    buf := buf0;
    var bits := word;
    var b := 0;
    while b < WORD_BITS && bits != {}
      invariant b <= WORD_BITS && |buf| <= MAX_RELEASE
      invariant forall x :: x in bits <==> x in word && x >= b
      invariant Cap(buf + (KeyUps(keys, w * WORD_BITS + b) + ups)) == Cap(buf0 + (KeyUps(keys, w * WORD_BITS) + ups))
    {
      var vk := w * WORD_BITS + b;
      KeyUpsStep(keys, vk);
      assert b in bits <==> vk in keys by { assert b in word <==> vk in keys; }
      if b in bits {
        bits := bits - {b};
        var meta := h.keyScan[vk];
        var up := MakeKeyInput(vk, meta % 256, meta / 256 % 2 == 1, true, ModeOfMeta(meta), TAG);
        IsKeyUp(vk, meta);
        CapStep(buf, up, KeyUps(keys, vk + 1), ups);
        if |buf| < MAX_RELEASE { buf := buf + [up]; }
      }
      b := b + 1;
    }
    NoMoreInWord(keys, w, b, word);
  }

  /** Leaving the loop early skips nothing: no bit from b on is set. */
  lemma {:induction false} NoMoreInWord(keys: map<nat, nat>, w: nat, b: nat, word: set<nat>)
    requires w < WORDS && b <= WORD_BITS
    requires forall x: nat {:trigger x in word} :: x < WORD_BITS ==> (x in word <==> w * WORD_BITS + x in keys)
    requires forall x :: x in word ==> x < b || x >= WORD_BITS
    ensures KeyUps(keys, w * WORD_BITS + b) == KeyUps(keys, (w + 1) * WORD_BITS)
    decreases WORD_BITS - b
  {
    hide KeyUps, KeyUp;
    if b < WORD_BITS {
      assert b !in word;
      KeyUpsStep(keys, w * WORD_BITS + b);
      NoMoreInWord(keys, w, b + 1, word);
    }
  }

  method ReleaseButtons(buf0: seq<Input>, mask: set<nat>) returns (buf: seq<Input>)
    requires |buf0| <= MAX_RELEASE
    ensures buf == Cap(buf0 + ButtonUps(mask, 0))
  {
    buf := buf0;
    var b := 0;
    while b < 5
      invariant b <= 5 && |buf| <= MAX_RELEASE
      invariant Cap(buf + ButtonUps(mask, b)) == Cap(buf0 + ButtonUps(mask, 0))
    {
      hide Cap, ButtonUps;
      ButtonUpsStep(mask, b);
      if b in mask {
        CapStep(buf, ButtonUp(b), ButtonUps(mask, b + 1), []);
        if |buf| < MAX_RELEASE { buf := buf + [MakeMouseInput(ButtonOfBit(b), false, 0, TAG)]; }
      } else {
        assert [] + ButtonUps(mask, b + 1) == ButtonUps(mask, b + 1);
      }
      b := b + 1;
    }
    assert buf + [] == buf;
  }

  /** If the program dies between two calls of its sender, the guardian sends what the sender's own releaseAll
      would have sent. */
  method ProgramDies(s: Sender) returns (buf: seq<Input>)
    requires s.Valid() && s.shared.magic == MAGIC
    modifies s.shared`mouseMask, s.shared.keyBits
    ensures buf == ReleaseList(old(s.Now()))
    ensures s.shared.Recorded() == NOTHING
  {
    s.UpToDate();
    buf := ReleaseHeldFrom(s.shared);
  }

  /** If it dies in the middle of a publish, after any number of its stores, the guardian releases a record in
      between: each key with the metadata it was recorded with or has now, and none left out that was recorded and is
      still held. */
  method ProgramDiesPublishing(s: Sender, stores: nat) returns (buf: seq<Input>, ghost rec: Held)
    requires s.Shape() && s.shared.magic == MAGIC
    modifies s`dirty, s.shared`mouseMask, s.shared.keyBits, s.shared.keyScan
    ensures Between(old(s.shared.Recorded()), old(s.Now()), rec) && buf == ReleaseList(rec)
    ensures s.shared.Recorded() == NOTHING
  {
    hide Between, KeyMap;
    var done := s.PublishSteps(stores);
    rec := s.shared.Recorded();
    buf := ReleaseHeldFrom(s.shared);
  }
}
