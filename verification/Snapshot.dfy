/** Group snapshot images: framing, building an image and installing it. */
module Snapshot {
  import opened LockSpec
  import opened Bytes
  import opened Keys
  import opened Store
  import opened Txn

  /** One group-relative record: a state family by index, or the group meta. */
  datatype Frame = Frame(cf: nat, key: Key, value: Key)

  const META_CF_MARKER: nat := 255
  const META: string := "meta"
  /** "pathlockd-snapshot" and a NUL. */
  const IMAGE_MAGIC: Key := [112, 97, 116, 104, 108, 111, 99, 107, 100, 45, 115, 110, 97, 112, 115, 104, 111, 116, 0]

  /** The serializer, of which only faithfulness is used. */
  datatype Codec = Codec(encode: Frame -> Key, decode: Key -> Option<Frame>) {
    ghost predicate Faithful() { forall f :: decode(encode(f)) == Some(f) }
  }

  // --- frames ---

  predicate Fits(codec: Codec, f: Frame) { |codec.encode(f)| < Pow256(4) }

  function Framed(codec: Codec, f: Frame): (r: Key) { BigEndian(|codec.encode(f)|, 4) + codec.encode(f) }

  function Body(codec: Codec, frames: seq<Frame>): (r: Key) {
    if frames == [] then [] else Framed(codec, frames[0]) + Body(codec, frames[1..])
  }

  function Image(codec: Codec, frames: seq<Frame>): (r: Key) { IMAGE_MAGIC + Body(codec, frames) }

  /** The frame at the front and what follows it. */
  function NextFrame(codec: Codec, rest: Key): (r: Option<(Frame, Key)>)
    ensures r.Some? ==> |r.value.1| < |rest|
  {
    if |rest| < 4 then None
    else
      var len := FromBigEndian(rest[..4]);
      var tail := rest[4..];
      if |tail| < len then None
      else match codec.decode(tail[..len])
        case None => None
        case Some(f) => Some((f, tail[len..]))
  }

  function After(f: Frame, fs: Option<seq<Frame>>): (r: Option<seq<Frame>>) { if fs.Some? then Some([f] + fs.value) else None }

  function ParseBody(codec: Codec, rest: Key): (r: Option<seq<Frame>>)
    decreases |rest|
  {
    if rest == [] then Some([])
    else match NextFrame(codec, rest)
      case None => None
      case Some((f, tail)) => After(f, ParseBody(codec, tail))
  }

  function ParseImage(codec: Codec, image: Key): (r: Option<seq<Frame>>) {
    if IMAGE_MAGIC <= image then ParseBody(codec, image[|IMAGE_MAGIC|..]) else None
  }

  lemma NextFramed(codec: Codec, f: Frame, rest: Key)
    requires codec.Faithful() && Fits(codec, f)
    ensures NextFrame(codec, Framed(codec, f) + rest) == Some((f, rest))
  {
    hide BigEndian, FromBigEndian, Pow256;
    var enc := codec.encode(f);
    BigEndianRoundTrip(|enc|, 4);
    var all := Framed(codec, f) + rest;
    assert all[..4] == BigEndian(|enc|, 4) && all[4..] == enc + rest;
    assert (enc + rest)[..|enc|] == enc && (enc + rest)[|enc|..] == rest;
  }

  lemma {:induction false} BodyRoundTrip(codec: Codec, frames: seq<Frame>)
    requires codec.Faithful() && forall f :: f in frames ==> Fits(codec, f)
    ensures ParseBody(codec, Body(codec, frames)) == Some(frames)
  {
    hide Framed, Fits, NextFrame;
    if frames != [] {
      assert frames[0] in frames;
      BodyRoundTrip(codec, frames[1..]);
      NextFramed(codec, frames[0], Body(codec, frames[1..]));
      assert [frames[0]] + frames[1..] == frames;
      NoEmptyFrame(codec, Body(codec, frames));
    }
  }

  lemma NoEmptyFrame(codec: Codec, rest: Key)
    ensures NextFrame(codec, rest).Some? ==> rest != []
  {
  }

  /** Parsing an image returns exactly the frames written, in order. */
  lemma ImageRoundTrip(codec: Codec, frames: seq<Frame>)
    requires codec.Faithful() && forall f :: f in frames ==> Fits(codec, f)
    ensures ParseImage(codec, Image(codec, frames)) == Some(frames)
  {
    BodyRoundTrip(codec, frames);
    assert Image(codec, frames)[|IMAGE_MAGIC|..] == Body(codec, frames);
  }

  lemma {:induction false} BodySnoc(codec: Codec, frames: seq<Frame>, f: Frame)
    ensures Body(codec, frames + [f]) == Body(codec, frames) + Framed(codec, f)
  {
    if frames == [] {
      assert [] + [f] == [f] && [f][1..] == [];
      assert Body(codec, [f]) == Framed(codec, f) + Body(codec, []);
    } else {
      BodySnoc(codec, frames[1..], f);
      assert (frames + [f])[1..] == frames[1..] + [f];
      assert Framed(codec, frames[0]) + (Body(codec, frames[1..]) + Framed(codec, f)) == Body(codec, frames) + Framed(codec, f);
    }
  }

  /** Appends one frame; None: the frame is too large for its length field. */
  method PushFrame(codec: Codec, image: Key, f: Frame, ghost frames: seq<Frame>) returns (r: Option<Key>)
    requires image == Image(codec, frames)
    ensures r == if Fits(codec, f) then Some(Image(codec, frames + [f])) else None
  {
    BodySnoc(codec, frames, f);
    var encoded := codec.encode(f);
    if |encoded| >= Pow256(4) { return None; }
    assert image + (BigEndian(|encoded|, 4) + encoded) == IMAGE_MAGIC + (Body(codec, frames) + Framed(codec, f));
    return Some(image + (BigEndian(|encoded|, 4) + encoded));
  }

  function Before(frames: seq<Frame>, fs: Option<seq<Frame>>): (r: Option<seq<Frame>>) { if fs.Some? then Some(frames + fs.value) else None }

  lemma BeforeAfter(frames: seq<Frame>, f: Frame, fs: Option<seq<Frame>>)
    ensures Before(frames, After(f, fs)) == Before(frames + [f], fs)
  {
    if fs.Some? { assert frames + ([f] + fs.value) == frames + [f] + fs.value; }
  }

  /** Parses by advancing through the image. None: bad magic, a truncated frame or an undecodable one. */
  method ForEachFrame(codec: Codec, image: Key) returns (r: Option<seq<Frame>>)
    ensures r == ParseImage(codec, image)
  {
    hide FromBigEndian, After, Before;
    if !(IMAGE_MAGIC <= image) { return None; }
    var rest := image[|IMAGE_MAGIC|..];
    var frames := [];
    ghost var whole := ParseBody(codec, rest);
    assert Before([], whole) == whole by { BeforeNothing(whole); }
    while rest != []
      invariant Before(frames, ParseBody(codec, rest)) == whole
      decreases |rest|
    {
      ghost var here := rest;
      if |rest| < 4 { BeforeNone(frames); return None; }
      var len := FromBigEndian(rest[..4]);
      rest := rest[4..];
      if |rest| < len { BeforeNone(frames); return None; }
      var f := codec.decode(rest[..len]);
      if f.None? { BeforeNone(frames); return None; }
      rest := rest[len..];
      assert NextFrame(codec, here) == Some((f.value, rest));
      BeforeAfter(frames, f.value, ParseBody(codec, rest));
      frames := frames + [f.value];
    }
    BeforeEnd(frames);
    return Some(frames);
  }

  lemma BeforeNothing(fs: Option<seq<Frame>>)
    ensures Before([], fs) == fs
  {
    if fs.Some? { assert [] + fs.value == fs.value; }
  }

  lemma BeforeNone(frames: seq<Frame>)
    ensures Before(frames, None) == None
  {
  }

  lemma BeforeEnd(frames: seq<Frame>)
    ensures Before(frames, Some([])) == Some(frames)
  {
    assert frames + [] == frames;
  }

  // --- what an image contains ---

  /** State families by name and the meta keys that belong to Raft. */
  datatype Layout = Layout(states: seq<string>, raft: set<Key>) {
    ghost predicate Valid() {
      && |states| < META_CF_MARKER && META !in states
      && forall i, j :: 0 <= i < j < |states| ==> states[i] != states[j]
    }

    function Family(f: Frame): (r: Option<string>) {
      if f.cf == META_CF_MARKER then Some(META) else if f.cf < |states| then Some(states[f.cf]) else None
    }
  }

  function Part(cfs: map<string, Committed>, cf: string, group: nat): (r: Committed) { GroupPart(Txn.Family(cfs, cf), GroupPrefix(group)) }

  /** Every state record of the group and every meta record that is not Raft's, and nothing else. */
  ghost predicate Captures(frames: seq<Frame>, cfs: map<string, Committed>, group: nat, lay: Layout) {
    && (forall f :: f in frames ==> lay.Family(f).Some?)
    && (forall i, k, v :: 0 <= i < |lay.states| ==>
          (Frame(i, k, v) in frames <==> Lookup(Part(cfs, lay.states[i], group), k) == Some(v)))
    && (forall k, v :: Frame(META_CF_MARKER, k, v) in frames <==> Lookup(Part(cfs, META, group), k) == Some(v) && k !in lay.raft)
  }

  function FramesOf(cf: nat, es: Entries): (r: seq<Frame>) { seq(|es|, i requires 0 <= i < |es| => Frame(cf, es[i].0, es[i].1)) }

  lemma FramesOfHas(cf: nat, es: Entries, f: Frame)
    ensures f in FramesOf(cf, es) <==> f.cf == cf && (f.key, f.value) in es
  {
    var fs := FramesOf(cf, es);
    if f in fs {
      var i :| 0 <= i < |fs| && fs[i] == f;
      assert es[i] in es;
    }
    if f.cf == cf && (f.key, f.value) in es {
      var i :| 0 <= i < |es| && es[i] == (f.key, f.value);
      assert fs[i] == f;
    }
  }

  // --- building ---

  function EntriesOf(m: Committed): (r: Entries)
    ensures forall k, v :: (k, v) in r <==> Lookup(m, k) == Some(v)
  {
    var ks := SortedByteKeys(m.Keys);
    assert forall i :: 0 <= i < |ks| ==> ks[i] in ks;
    var r := seq(|ks|, i requires 0 <= i < |ks| => (ks[i], m[ks[i]]));
    assert forall k, v :: (k, v) in r <==> Lookup(m, k) == Some(v) by { EntriesOfHas(m, ks, r); }
    r
  }

  lemma EntriesOfHas(m: Committed, ks: seq<Key>, r: Entries)
    requires (forall k :: k in ks <==> k in m) && |r| == |ks| && forall i :: 0 <= i < |ks| ==> ks[i] in m && r[i] == (ks[i], m[ks[i]])
    ensures forall k, v :: (k, v) in r <==> Lookup(m, k) == Some(v)
  {
    forall k, v ensures (k, v) in r <==> Lookup(m, k) == Some(v) {
      if (k, v) in r { var i :| 0 <= i < |r| && r[i] == (k, v); assert ks[i] in ks; }
      if Lookup(m, k) == Some(v) { assert k in ks; var i :| 0 <= i < |ks| && ks[i] == k; assert r[i] == (k, v); }
    }
  }

  function StateFrames(cfs: map<string, Committed>, group: nat, lay: Layout, n: nat): (r: seq<Frame>)
    requires n <= |lay.states|
  {
    if n == 0 then [] else StateFrames(cfs, group, lay, n - 1) + FramesOf(n - 1, EntriesOf(Part(cfs, lay.states[n - 1], group)))
  }

  function OwnMeta(m: Committed, raft: set<Key>): (r: Committed) { map k | k in m && k !in raft :: m[k] }

  function BuildFrames(cfs: map<string, Committed>, group: nat, lay: Layout): (r: seq<Frame>) {
    StateFrames(cfs, group, lay, |lay.states|) + FramesOf(META_CF_MARKER, EntriesOf(OwnMeta(Part(cfs, META, group), lay.raft)))
  }

  lemma {:induction false} StateFramesHas(cfs: map<string, Committed>, group: nat, lay: Layout, n: nat, f: Frame)
    requires n <= |lay.states|
    ensures f in StateFrames(cfs, group, lay, n) <==> f.cf < n && Lookup(Part(cfs, lay.states[f.cf], group), f.key) == Some(f.value)
  {
    hide Part, EntriesOf, FramesOf;
    if n > 0 {
      StateFramesHas(cfs, group, lay, n - 1, f);
      FramesOfHas(n - 1, EntriesOf(Part(cfs, lay.states[n - 1], group)), f);
    }
  }

  /** The frames written are the group's state and its own meta, exactly. */
  lemma BuildCaptures(cfs: map<string, Committed>, group: nat, lay: Layout)
    requires lay.Valid()
    ensures Captures(BuildFrames(cfs, group, lay), cfs, group, lay)
  {
    hide Part, EntriesOf, FramesOf, StateFrames;
    var own := OwnMeta(Part(cfs, META, group), lay.raft);
    forall f ensures f in BuildFrames(cfs, group, lay) <==>
                     (f.cf < |lay.states| && Lookup(Part(cfs, lay.states[f.cf], group), f.key) == Some(f.value))
                     || (f.cf == META_CF_MARKER && Lookup(own, f.key) == Some(f.value))
    {
      StateFramesHas(cfs, group, lay, |lay.states|, f);
      FramesOfHas(META_CF_MARKER, EntriesOf(own), f);
    }
  }

  /** Every frame fits its length field, and the image, unless it holds no record, the limit. */
  ghost predicate WithinLimits(codec: Codec, frames: seq<Frame>, maxBytes: nat) {
    (forall f :: f in frames ==> Fits(codec, f)) && (frames != [] ==> |Image(codec, frames)| <= maxBytes)
  }

  lemma WithinLimitsLess(codec: Codec, front: seq<Frame>, frames: seq<Frame>, maxBytes: nat)
    requires WithinLimits(codec, frames, maxBytes) && front <= frames
    ensures WithinLimits(codec, front, maxBytes)
  {
    hide Fits, Image;
    var rest := frames[|front|..];
    assert frames == front + rest;
    ImageGrows(codec, front, rest);
  }

  lemma WithinLimitsMore(codec: Codec, frames: seq<Frame>, f: Frame, maxBytes: nat)
    requires WithinLimits(codec, frames, maxBytes) && Fits(codec, f) && |Image(codec, frames + [f])| <= maxBytes
    ensures WithinLimits(codec, frames + [f], maxBytes)
  {
    hide Fits, Image;
  }

  lemma LastTooLarge(codec: Codec, frames: seq<Frame>, f: Frame, maxBytes: nat)
    requires !Fits(codec, f) || |Image(codec, frames + [f])| > maxBytes
    ensures !WithinLimits(codec, frames + [f], maxBytes)
  {
    hide Fits, Image;
    assert f in frames + [f];
  }

  lemma {:induction false} StatePrefix(cfs: map<string, Committed>, group: nat, lay: Layout, n: nat)
    requires n <= |lay.states|
    ensures StateFrames(cfs, group, lay, n) <= BuildFrames(cfs, group, lay)
    decreases |lay.states| - n
  {
    hide Part, EntriesOf, FramesOf, OwnMeta;
    if n < |lay.states| { StatePrefix(cfs, group, lay, n + 1); }
  }

  /** Appends a family's records frame by frame, refusing exactly what exceeds a limit. */
  method PushEntries(codec: Codec, image: Key, cf: nat, es: Entries, maxBytes: nat, ghost frames: seq<Frame>) returns (r: Option<Key>)
    requires image == Image(codec, frames) && WithinLimits(codec, frames, maxBytes)
    ensures r.Some? <==> WithinLimits(codec, frames + FramesOf(cf, es), maxBytes)
    ensures r.Some? ==> r.value == Image(codec, frames + FramesOf(cf, es))
  {
    hide Image, Fits, IMAGE_MAGIC, WithinLimits;
    var out := image;
    ghost var fs := FramesOf(cf, es);
    assert frames + fs[..0] == frames;
    for i := 0 to |es|
      invariant out == Image(codec, frames + fs[..i]) && WithinLimits(codec, frames + fs[..i], maxBytes)
    {
      var f := Frame(cf, es[i].0, es[i].1);
      ghost var done := frames + fs[..i];
      assert fs[..i + 1] == fs[..i] + [f];
      assert done + [f] == frames + fs[..i + 1] && frames + fs[..i + 1] <= frames + fs;
      var next := PushFrame(codec, out, f, done);
      if next.None? || |next.value| > maxBytes {
        LastTooLarge(codec, done, f, maxBytes);
        if WithinLimits(codec, frames + fs, maxBytes) { WithinLimitsLess(codec, done + [f], frames + fs, maxBytes); }
        return None;
      }
      WithinLimitsMore(codec, done, f, maxBytes);
      out := next.value;
    }
    assert fs[..|es|] == fs;
    return Some(out);
  }

  lemma {:induction false} ImageGrows(codec: Codec, frames: seq<Frame>, more: seq<Frame>)
    ensures |Image(codec, frames)| <= |Image(codec, frames + more)|
    decreases |more|
  {
    if more == [] {
      assert frames + more == frames;
    } else {
      BodySnoc(codec, frames, more[0]);
      ImageGrows(codec, frames + [more[0]], more[1..]);
      assert frames + [more[0]] + more[1..] == frames + more;
    }
  }

  /** The image of a group: state families in order, then the group's own meta. None: exactly when a frame or the image is too large. */
  method BuildImage(codec: Codec, cfs: map<string, Committed>, group: nat, lay: Layout, maxBytes: nat) returns (r: Option<Key>)
    ensures r.Some? <==> WithinLimits(codec, BuildFrames(cfs, group, lay), maxBytes)
    ensures r.Some? ==> r.value == Image(codec, BuildFrames(cfs, group, lay))
  {
    hide Image, Part, EntriesOf, OwnMeta, FramesOf, WithinLimits;
    var image := IMAGE_MAGIC;
    EmptyImage(codec, maxBytes);
    for i := 0 to |lay.states|
      invariant image == Image(codec, StateFrames(cfs, group, lay, i)) && WithinLimits(codec, StateFrames(cfs, group, lay, i), maxBytes)
    {
      var next := PushEntries(codec, image, i, EntriesOf(Part(cfs, lay.states[i], group)), maxBytes, StateFrames(cfs, group, lay, i));
      if next.None? {
        StatePrefix(cfs, group, lay, i + 1);
        if WithinLimits(codec, BuildFrames(cfs, group, lay), maxBytes) {
          WithinLimitsLess(codec, StateFrames(cfs, group, lay, i + 1), BuildFrames(cfs, group, lay), maxBytes);
        }
        return None;
      }
      image := next.value;
    }
    r := PushEntries(codec, image, META_CF_MARKER, EntriesOf(OwnMeta(Part(cfs, META, group), lay.raft)), maxBytes,
                     StateFrames(cfs, group, lay, |lay.states|));
  }

  lemma EmptyImage(codec: Codec, maxBytes: nat)
    ensures Image(codec, []) == IMAGE_MAGIC && WithinLimits(codec, [], maxBytes)
  {
    assert IMAGE_MAGIC + [] == IMAGE_MAGIC;
  }

  // --- installing ---

  /** The last group has no upper bound; its wipe stops at sixteen 0xFF bytes. */
  function WipeUpper(group: nat): (r: Key) {
    if UpperOf(GroupPrefix(group)).Some? then UpperOf(GroupPrefix(group)).value else seq(16, _ => 255)
  }

  function WipedFamily(m: Committed, group: nat): (r: Committed) {
    map f | f in m && !InRange(f, Some(GroupPrefix(group)), Some(WipeUpper(group))) :: m[f]
  }

  function WipedMeta(m: Committed, group: nat, raft: set<Key>): (r: Committed) {
    map f | f in m && !(GroupPrefix(group) <= f && f[4..] !in raft) :: m[f]
  }

  function WipeStates(cfs: map<string, Committed>, group: nat, states: seq<string>): (r: map<string, Committed>) {
    if states == [] then cfs
    else
      var n := |states| - 1;
      var done := WipeStates(cfs, group, states[..n]);
      done[states[n] := WipedFamily(Txn.Family(done, states[n]), group)]
  }

  function WipeAll(cfs: map<string, Committed>, group: nat, lay: Layout): (r: map<string, Committed>) {
    var done := WipeStates(cfs, group, lay.states);
    done[META := WipedMeta(Txn.Family(done, META), group, lay.raft)]
  }

  function PutFrame(cfs: map<string, Committed>, group: nat, lay: Layout, f: Frame): (r: map<string, Committed>) {
    match lay.Family(f)
    case None => cfs
    case Some(cf) => cfs[cf := Txn.Family(cfs, cf)[GroupKey(group, f.key) := f.value]]
  }

  function PutFrames(cfs: map<string, Committed>, group: nat, lay: Layout, frames: seq<Frame>): (r: map<string, Committed>) {
    if frames == [] then cfs
    else PutFrame(PutFrames(cfs, group, lay, frames[..|frames| - 1]), group, lay, frames[|frames| - 1])
  }

  function Installed(cfs: map<string, Committed>, group: nat, lay: Layout, frames: seq<Frame>): (r: map<string, Committed>) {
    PutFrames(WipeAll(cfs, group, lay), group, lay, frames)
  }

  method WipeGroup(cfs: map<string, Committed>, group: nat, lay: Layout) returns (out: map<string, Committed>)
    ensures out == WipeAll(cfs, group, lay)
  {
    hide WipedFamily, WipedMeta;
    out := cfs;
    for i := 0 to |lay.states|
      invariant out == WipeStates(cfs, group, lay.states[..i])
    {
      assert lay.states[..i + 1][..i] == lay.states[..i];
      out := out[lay.states[i] := WipedFamily(Txn.Family(out, lay.states[i]), group)];
    }
    assert lay.states[..|lay.states|] == lay.states;
    out := out[META := WipedMeta(Txn.Family(out, META), group, lay.raft)];
  }

  /** Replaces the group's keyspace by the image. None: the image does not parse or names an unknown family. */
  method InstallImage(codec: Codec, cfs: map<string, Committed>, group: nat, lay: Layout, image: Key) returns (r: Option<map<string, Committed>>)
    ensures match ParseImage(codec, image)
            case None => r == None
            case Some(frames) =>
              if forall f :: f in frames ==> lay.Family(f).Some? then r == Some(Installed(cfs, group, lay, frames)) else r == None
  {
    hide ParseImage, WipeAll, GroupKey;
    var out := WipeGroup(cfs, group, lay);
    var frames := ForEachFrame(codec, image);
    if frames.None? { return None; }
    var fs := frames.value;
    for i := 0 to |fs|
      invariant out == PutFrames(WipeAll(cfs, group, lay), group, lay, fs[..i])
      invariant forall f :: f in fs[..i] ==> lay.Family(f).Some?
    {
      assert fs[..i + 1] == fs[..i] + [fs[i]] && fs[..i + 1][..i] == fs[..i] && fs[i] in fs;
      var cf := lay.Family(fs[i]);
      if cf.None? { return None; }
      out := out[cf.value := Txn.Family(out, cf.value)[GroupKey(group, fs[i].key) := fs[i].value]];
    }
    assert fs[..|fs|] == fs;
    return Some(out);
  }

  // --- round trip ---

  /** The value the frames leave under a full key, if any. */
  function LastFor(frames: seq<Frame>, group: nat, lay: Layout, cf: string, f: Key): (r: Option<Key>) {
    if frames == [] then None
    else
      var last := frames[|frames| - 1];
      if lay.Family(last) == Some(cf) && GroupKey(group, last.key) == f then Some(last.value)
      else LastFor(frames[..|frames| - 1], group, lay, cf, f)
  }

  lemma {:induction false} PutFramesAt(cfs: map<string, Committed>, group: nat, lay: Layout, frames: seq<Frame>, cf: string, f: Key)
    ensures Lookup(Txn.Family(PutFrames(cfs, group, lay, frames), cf), f) ==
            (var last := LastFor(frames, group, lay, cf, f); if last.Some? then last else Lookup(Txn.Family(cfs, cf), f))
  {
    hide GroupKey;
    if frames != [] { PutFramesAt(cfs, group, lay, frames[..|frames| - 1], cf, f); }
  }

  lemma {:induction false} LastForIs(frames: seq<Frame>, group: nat, lay: Layout, cf: string, f: Key)
    ensures match LastFor(frames, group, lay, cf, f)
            case Some(v) => exists x :: x in frames && lay.Family(x) == Some(cf) && GroupKey(group, x.key) == f && x.value == v
            case None => forall x :: x in frames && lay.Family(x) == Some(cf) ==> GroupKey(group, x.key) != f
  {
    hide GroupKey;
    if frames != [] {
      var last := frames[|frames| - 1];
      assert forall x :: x in frames <==> x == last || x in frames[..|frames| - 1];
      LastForIs(frames[..|frames| - 1], group, lay, cf, f);
    }
  }

  lemma SameGroupKey(group: nat, a: Key, b: Key)
    ensures GroupKey(group, a) == GroupKey(group, b) <==> a == b
  {
    assert GroupKey(group, a)[4..] == a && GroupKey(group, b)[4..] == b;
  }

  lemma CapturedState(frames: seq<Frame>, src: map<string, Committed>, group: nat, lay: Layout, i: nat, k: Key)
    requires lay.Valid() && Captures(frames, src, group, lay) && i < |lay.states|
    ensures LastFor(frames, group, lay, lay.states[i], GroupKey(group, k)) == Lookup(Part(src, lay.states[i], group), k)
  {
    hide Part, LastFor, GroupKey;
    var cf := lay.states[i];
    LastForIs(frames, group, lay, cf, GroupKey(group, k));
    forall x ensures GroupKey(group, x) == GroupKey(group, k) <==> x == k { SameGroupKey(group, x, k); }
    assert forall x :: x in frames && lay.Family(x) == Some(cf) ==> x == Frame(i, x.key, x.value);
    var found := Lookup(Part(src, cf, group), k);
    if found.Some? { assert Frame(i, k, found.value) in frames; }
  }

  lemma CapturedMeta(frames: seq<Frame>, src: map<string, Committed>, group: nat, lay: Layout, k: Key)
    requires lay.Valid() && Captures(frames, src, group, lay)
    ensures LastFor(frames, group, lay, META, GroupKey(group, k)) == (if k in lay.raft then None else Lookup(Part(src, META, group), k))
  {
    hide Part, LastFor, GroupKey;
    LastForIs(frames, group, lay, META, GroupKey(group, k));
    forall x ensures GroupKey(group, x) == GroupKey(group, k) <==> x == k { SameGroupKey(group, x, k); }
    assert forall x :: x in frames && lay.Family(x) == Some(META) ==> x == Frame(META_CF_MARKER, x.key, x.value);
    var found := Lookup(Part(src, META, group), k);
    if found.Some? && k !in lay.raft { assert Frame(META_CF_MARKER, k, found.value) in frames; }
  }

  predicate Wipes(group: nat, f: Key) { InRange(f, Some(GroupPrefix(group)), Some(WipeUpper(group))) }

  lemma {:induction false} WipeStatesAt(cfs: map<string, Committed>, group: nat, states: seq<string>, cf: string, f: Key)
    ensures Lookup(Txn.Family(WipeStates(cfs, group, states), cf), f) ==
            if cf in states && Wipes(group, f) then None else Lookup(Txn.Family(cfs, cf), f)
  {
    hide InRange, WipeUpper, GroupPrefix;
    if states != [] {
      var n := |states| - 1;
      assert forall x :: x in states <==> x == states[n] || x in states[..n];
      WipeStatesAt(cfs, group, states[..n], cf, f);
    }
  }

  /** The wipe reaches only keys of the group. */
  lemma WipesOnlyGroup(group: nat, f: Key)
    ensures Wipes(group, f) ==> GroupPrefix(group) <= f
    ensures GroupPrefix(group) <= f && KeyBefore(f, WipeUpper(group)) ==> Wipes(group, f)
  {
    hide BigEndian, KeyBefore;
    var gp := GroupPrefix(group);
    UpperOfIs(gp, f);
  }

  ghost predicate Captured(frames: seq<Frame>, src: map<string, Committed>, group: nat, lay: Layout) {
    lay.Valid() && Captures(frames, src, group, lay)
  }

  lemma PartAt(cfs: map<string, Committed>, cf: string, group: nat, k: Key)
    ensures Lookup(Part(cfs, cf, group), k) == Lookup(Txn.Family(cfs, cf), GroupKey(group, k))
  {
    GroupPartAt(Txn.Family(cfs, cf), GroupPrefix(group), k);
  }

  /** A state record is reproduced exactly when the source has it, the target had none there, or the wipe reached it. */
  lemma StateReproducedIff(
    src: map<string, Committed>, dst: map<string, Committed>, group: nat, lay: Layout, frames: seq<Frame>, i: nat, k: Key)
    requires Captured(frames, src, group, lay) && i < |lay.states|
    ensures var cf := lay.states[i];
            Lookup(Part(Installed(dst, group, lay, frames), cf, group), k) == Lookup(Part(src, cf, group), k) <==>
            Lookup(Part(src, cf, group), k).Some? || Lookup(Part(dst, cf, group), k).None? || KeyBefore(GroupKey(group, k), WipeUpper(group))
  {
    hide Part, Captures, LastFor, PutFrames, WipeStates, Wipes, Lookup, KeyBefore, WipeUpper;
    var cf, f := lay.states[i], GroupKey(group, k);
    PartAt(Installed(dst, group, lay, frames), cf, group, k);
    PartAt(dst, cf, group, k);
    PutFramesAt(WipeAll(dst, group, lay), group, lay, frames, cf, f);
    CapturedState(frames, src, group, lay, i, k);
    WipeStatesAt(dst, group, lay.states, cf, f);
    WipesOnlyGroup(group, f);
    WipesBelow(group, f);
    assert Txn.Family(WipeAll(dst, group, lay), cf) == Txn.Family(WipeStates(dst, group, lay.states), cf);
  }

  lemma WipesBelow(group: nat, f: Key)
    ensures Wipes(group, f) ==> KeyBefore(f, WipeUpper(group))
  {
  }

  /** Raft's meta keys stay the target's; all other meta becomes the source's. */
  lemma MetaReproduced(
    src: map<string, Committed>, dst: map<string, Committed>, group: nat, lay: Layout, frames: seq<Frame>, k: Key)
    requires Captured(frames, src, group, lay)
    ensures Lookup(Part(Installed(dst, group, lay, frames), META, group), k) ==
            if k in lay.raft then Lookup(Part(dst, META, group), k) else Lookup(Part(src, META, group), k)
  {
    hide Part, Captures, LastFor, PutFrames, WipeStates, Wipes, BigEndian;
    var f := GroupKey(group, k);
    PartAt(Installed(dst, group, lay, frames), META, group, k);
    PartAt(dst, META, group, k);
    PutFramesAt(WipeAll(dst, group, lay), group, lay, frames, META, f);
    CapturedMeta(frames, src, group, lay, k);
    WipeStatesAt(dst, group, lay.states, META, f);
    assert GroupPrefix(group) <= f && f[4..] == k;
  }

  /** Keys outside the group are untouched, in every family. */
  lemma OthersUntouched(
    src: map<string, Committed>, dst: map<string, Committed>, group: nat, lay: Layout, frames: seq<Frame>, cf: string, f: Key)
    requires Captured(frames, src, group, lay) && !(GroupPrefix(group) <= f)
    ensures Lookup(Txn.Family(Installed(dst, group, lay, frames), cf), f) == Lookup(Txn.Family(dst, cf), f)
  {
    hide Captures, LastFor, PutFrames, WipeStates, Wipes, BigEndian;
    PutFramesAt(WipeAll(dst, group, lay), group, lay, frames, cf, f);
    LastForIs(frames, group, lay, cf, f);
    assert forall k :: GroupPrefix(group) <= GroupKey(group, k);
    WipeStatesAt(dst, group, lay.states, cf, f);
    WipesOnlyGroup(group, f);
  }

  lemma SameMap(a: Committed, b: Committed)
    requires forall k :: Lookup(a, k) == Lookup(b, k)
    ensures a == b
  {
    assert forall k :: k in a <==> Lookup(a, k).Some?;
    assert forall k :: k in b <==> Lookup(b, k).Some?;
    assert forall k :: k in a ==> Lookup(a, k) == Some(a[k]);
    assert forall k :: k in b ==> Lookup(b, k) == Some(b[k]);
  }

  /** No stored state key of the group lies at or beyond the wipe bound. */
  ghost predicate Wipeable(dst: map<string, Committed>, group: nat, lay: Layout) {
    forall i, k :: 0 <= i < |lay.states| && Lookup(Part(dst, lay.states[i], group), k).Some? ==> KeyBefore(GroupKey(group, k), WipeUpper(group))
  }

  /** The frames of one group installed over another state of it, when the wipe reaches everything. */
  lemma FramesReproduce(src: map<string, Committed>, dst: map<string, Committed>, group: nat, lay: Layout, i: nat)
    requires lay.Valid() && i < |lay.states| && Wipeable(dst, group, lay)
    ensures Part(Installed(dst, group, lay, BuildFrames(src, group, lay)), lay.states[i], group) == Part(src, lay.states[i], group)
  {
    hide Part, Captures, Installed, BuildFrames, KeyBefore, WipeUpper, GroupKey;
    var frames := BuildFrames(src, group, lay);
    BuildCaptures(src, group, lay);
    var a, b := Part(Installed(dst, group, lay, frames), lay.states[i], group), Part(src, lay.states[i], group);
    forall k ensures Lookup(a, k) == Lookup(b, k) { StateReproducedIff(src, dst, group, lay, frames, i, k); }
    SameMap(a, b);
  }

  lemma {:induction false} NoUpperMeansLast(s: Key)
    requires UpperOf(s).None?
    ensures FromBigEndian(s) == Pow256(|s|) - 1
  {
    if s != [] { NoUpperMeansLast(s[..|s| - 1]); }
  }

  /** The group of the cluster-wide state, the last one possible. */
  const SYS_GROUP: nat := 0xFFFF_FFFF

  lemma SysIsLast()
    ensures SYS_GROUP == Pow256(4) - 1
  {
    assert Pow256(1) == 256 && Pow256(2) == 65536 && Pow256(3) == 16777216;
  }

  /** The wipe reaches a key of any group but the system group, and there exactly the keys that do not start with twelve 0xFF bytes. */
  lemma WipeReaches(group: nat, k: Key)
    requires group <= SYS_GROUP
    ensures KeyBefore(GroupKey(group, k), WipeUpper(group)) <==> group != SYS_GROUP || !(Ones(12) <= k)
  {
    hide KeyBefore, Pow256, BigEndian, FromBigEndian;
    SysIsLast();
    if group == SYS_GROUP {
      LastPrefix();
      SamePrefix(GroupPrefix(group), k, Ones(12));
      OnesHaveNoUpper(12);
      UpperOfIs(Ones(12), k);
    } else {
      BigEndianRoundTrip(group, 4);
      assert UpperOf(GroupPrefix(group)).Some? by { if UpperOf(GroupPrefix(group)).None? { NoUpperMeansLast(GroupPrefix(group)); assert false; } }
      UpperOfIs(GroupPrefix(group), GroupKey(group, k));
    }
  }

  lemma {:induction false} OnesHaveNoUpper(n: nat)
    ensures UpperOf(Ones(n)) == None
  {
    if n > 0 {
      OnesHaveNoUpper(n - 1);
      assert Ones(n)[..n - 1] == Ones(n - 1);
    }
  }

  /** Every state key of the group is one the store's key builders write. */
  ghost predicate Written(dst: map<string, Committed>, group: nat, lay: Layout) {
    forall i, k :: 0 <= i < |lay.states| && Lookup(Part(dst, lay.states[i], group), k).Some? ==> IsStateKey(k)
  }

  ghost predicate IsStateKey(k: Key) { exists s: StateKey :: s.Valid() && s.Encode() == k }

  /** The wipe reaches every key that is ever stored, in every group. */
  lemma WrittenWipeable(dst: map<string, Committed>, group: nat, lay: Layout)
    requires group <= SYS_GROUP && Written(dst, group, lay)
    ensures Wipeable(dst, group, lay)
  {
    hide Part, KeyBefore, WipeUpper, GroupKey, Ones;
    forall i, k | 0 <= i < |lay.states| && Lookup(Part(dst, lay.states[i], group), k).Some?
      ensures KeyBefore(GroupKey(group, k), WipeUpper(group))
    {
      assert IsStateKey(k);
      var s: StateKey :| s.Valid() && s.Encode() == k;
      FewOnes(s, 12);
      WipeReaches(group, k);
    }
  }

  /** The state of one group over another: its state families and own meta the source's, Raft's meta and every other group the target's. */
  ghost predicate Reproduces(
    r: map<string, Committed>, src: map<string, Committed>, dst: map<string, Committed>, group: nat, lay: Layout)
  {
    && (forall i :: 0 <= i < |lay.states| ==> Part(r, lay.states[i], group) == Part(src, lay.states[i], group))
    && (forall k :: Lookup(Part(r, META, group), k) == Lookup(Part(if k in lay.raft then dst else src, META, group), k))
    && (forall cf, f :: !(GroupPrefix(group) <= f) ==> Lookup(Txn.Family(r, cf), f) == Lookup(Txn.Family(dst, cf), f))
  }

  /** Installing the bytes of an image built from a group reproduces that group, whatever state the target was in. */
  lemma SnapshotReproduces(codec: Codec, src: map<string, Committed>, dst: map<string, Committed>, group: nat, lay: Layout, maxBytes: nat)
    requires codec.Faithful() && lay.Valid() && group <= SYS_GROUP && Written(dst, group, lay)
    requires WithinLimits(codec, BuildFrames(src, group, lay), maxBytes)
    ensures var frames := BuildFrames(src, group, lay);
            && ParseImage(codec, Image(codec, frames)) == Some(frames)
            && (forall f :: f in frames ==> lay.Family(f).Some?)
            && Reproduces(Installed(dst, group, lay, frames), src, dst, group, lay)
  {
    hide Part, Captures, Installed, BuildFrames, Image, ParseImage, Wipeable, Written, GroupPrefix;
    var frames := BuildFrames(src, group, lay);
    BuildCaptures(src, group, lay);
    ImageRoundTrip(codec, frames);
    assert forall f :: f in frames ==> lay.Family(f).Some? by { CapturedFamilies(frames, src, group, lay); }
    WrittenWipeable(dst, group, lay);
    var r := Installed(dst, group, lay, frames);
    forall i | 0 <= i < |lay.states| ensures Part(r, lay.states[i], group) == Part(src, lay.states[i], group) {
      FramesReproduce(src, dst, group, lay, i);
    }
    forall k ensures Lookup(Part(r, META, group), k) == Lookup(Part(if k in lay.raft then dst else src, META, group), k) {
      MetaReproduced(src, dst, group, lay, frames, k);
    }
    forall cf, f | !(GroupPrefix(group) <= f) ensures Lookup(Txn.Family(r, cf), f) == Lookup(Txn.Family(dst, cf), f) {
      OthersUntouched(src, dst, group, lay, frames, cf, f);
    }
  }

  lemma CapturedFamilies(frames: seq<Frame>, src: map<string, Committed>, group: nat, lay: Layout)
    requires Captures(frames, src, group, lay)
    ensures forall f :: f in frames ==> lay.Family(f).Some?
  {
  }

  /** A replica takes a group over from another's image: build on one side, install on the other. */
  method TransferGroup(codec: Codec, src: map<string, Committed>, dst: map<string, Committed>, group: nat, lay: Layout, maxBytes: nat)
    returns (r: Option<map<string, Committed>>)
    requires codec.Faithful() && lay.Valid() && group <= SYS_GROUP && Written(dst, group, lay)
    ensures r.Some? <==> WithinLimits(codec, BuildFrames(src, group, lay), maxBytes)
    ensures r.Some? ==> Reproduces(r.value, src, dst, group, lay)
  {
    hide Reproduces, Installed, BuildFrames, Image, ParseImage, Written, WithinLimits;
    var image := BuildImage(codec, src, group, lay, maxBytes);
    if image.None? { return None; }
    SnapshotReproduces(codec, src, dst, group, lay, maxBytes);
    r := InstallImage(codec, dst, group, lay, image.value);
  }

  /** The condition is needed: a key of twelve 0xFF bytes, which no key builder writes, would survive in the system group. */
  lemma LastGroupLeavesKey(lay: Layout, value: Key)
    requires lay.Valid() && lay.states != []
    ensures var group, k: Key := Pow256(4) - 1, seq(12, _ => 255);
            var dst := map[lay.states[0] := map[GroupKey(group, k) := value]];
            && Lookup(Part(dst, lay.states[0], group), k) == Some(value)
            && Lookup(Part(Installed(dst, group, lay, BuildFrames(map[], group, lay)), lay.states[0], group), k) != None
  {
    hide Part, Captures, Installed, BuildFrames, LastFor;
    var group, k: Key := Pow256(4) - 1, seq(12, _ => 255);
    var dst := map[lay.states[0] := map[GroupKey(group, k) := value]];
    PartAt(dst, lay.states[0], group, k);
    PartAt(map[], lay.states[0], group, k);
    BuildCaptures(map[], group, lay);
    StateReproducedIff(map[], dst, group, lay, BuildFrames(map[], group, lay), 0, k);
    LastPrefix();
    PrefixFirst(GroupKey(group, k), GroupKey(group, k));
  }

  lemma LastPrefix()
    ensures var group := Pow256(4) - 1; GroupPrefix(group) == [255, 255, 255, 255] && GroupKey(group, seq(12, _ => 255)) == WipeUpper(group)
  {
    hide UpperOf;
    assert Pow256(4) == 4294967296;
    assert BigEndian(255, 1) == [255];
    assert BigEndian(65535, 2) == [255, 255];
    assert BigEndian(16777215, 3) == [255, 255, 255];
    NoUpperBound();
  }

  lemma NoUpperBound()
    ensures UpperOf([255, 255, 255, 255]) == None
  {
    assert UpperOf([255]) == None;
    assert [255, 255][..1] == [255] && UpperOf([255, 255]) == None;
    assert [255, 255, 255][..2] == [255, 255] && UpperOf([255, 255, 255]) == None;
    assert [255, 255, 255, 255][..3] == [255, 255, 255];
  }
}
