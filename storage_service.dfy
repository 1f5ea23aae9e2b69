/** Pose storage over browser cookies, CookieStorageService
    (src/Services/storageService.ts): one cookie per pose under
    `lucy_pose_<id>`, plus an index cookie listing the pose ids. JSON and
    URI encoding are the functions of a `Codec`. */
module PoseStorage {
  import opened Wrappers
  import opened Seqs
  import opened Strings
  import opened RobotTypes
  import opened CookieJar

  const POSE_PREFIX: string := "lucy_pose_"
  const INDEX_KEY: string := "lucy_pose_index"
  const MAX_COOKIE_SIZE: nat := 4000

  /** A stored pose: joint name to angle, and an optional category order. */
  datatype SavedPose = SavedPose(
    id: string,
    name: string,
    timestamp: int,
    joints: map<string, real>,
    categoryOrder: Option<seq<string>>)

  datatype StorageError = PoseTooLarge(name: string)

  /** `encodeURIComponent(JSON.stringify(x))` and
      `JSON.parse(decodeURIComponent(s))`, the decoders giving `None` where
      they throw (or parse a falsy value). */
  datatype Codec = Codec(
    encodeIndex: seq<string> -> string,
    decodeIndex: string -> Option<seq<string>>,
    encodePose: SavedPose -> string,
    decodePose: string -> Option<SavedPose>)

  /** What the real encoders guarantee: decoding inverts encoding, and an
      encoded value is never empty and never holds `=` (which URI encoding
      escapes). */
  ghost predicate Lawful(codec: Codec)
  {
    && (forall ids :: codec.decodeIndex(codec.encodeIndex(ids)) == Some(ids))
    && (forall ids :: codec.encodeIndex(ids) != "" && '=' !in codec.encodeIndex(ids))
    && (forall p :: codec.decodePose(codec.encodePose(p)) == Some(p))
    && (forall p :: codec.encodePose(p) != "" && '=' !in codec.encodePose(p))
  }

  /** The cookie name of a pose: the prefix followed by the id. */
  function PoseKey(id: string): (r: string)
    ensures |r| == |POSE_PREFIX| + |id|
    ensures r[..|POSE_PREFIX|] == POSE_PREFIX && r[|POSE_PREFIX|..] == id
  {
    POSE_PREFIX + id
  }

  /** `getPoseIndex`: no index row, an empty value or a value that does not
      decode all read as no ids. */
  function PoseIndex(jar: seq<Cookie>, codec: Codec): (r: seq<string>)
    ensures CookieValue(jar, INDEX_KEY).None? || CookieValue(jar, INDEX_KEY).value == "" ==> r == []
    ensures CookieValue(jar, INDEX_KEY).Some? && codec.decodeIndex(CookieValue(jar, INDEX_KEY).value).None? ==> r == []
  {
    match CookieValue(jar, INDEX_KEY)
    case None => []
    case Some(v) => if v == "" then [] else codec.decodeIndex(v).GetOr([])
  }

  /** `getPoseCookie`: no row for the pose, an empty value or a value that
      does not decode all read as null. */
  function PoseCookie(jar: seq<Cookie>, codec: Codec, id: string): (r: Option<SavedPose>)
    ensures CookieValue(jar, PoseKey(id)).None? || CookieValue(jar, PoseKey(id)).value == "" ==> r == None
    ensures r.Some? ==> codec.decodePose(CookieValue(jar, PoseKey(id)).value) == r
  {
    match CookieValue(jar, PoseKey(id))
    case None => None
    case Some(v) => if v == "" then None else codec.decodePose(v)
  }

  /** A pose cookie name never holds `=` and is never the index cookie's
      name, for an id that holds no `=` and is not "index". */
  lemma PoseKeyFacts(id: string)
    requires '=' !in id && id != "index"
    ensures '=' !in PoseKey(id) && PoseKey(id) != INDEX_KEY && '=' !in INDEX_KEY
  {
    assert PoseKey(id)[|POSE_PREFIX|..] == id;
    assert INDEX_KEY == POSE_PREFIX + "index";
    assert forall i :: 0 <= i < |POSE_PREFIX| ==> PoseKey(id)[i] == POSE_PREFIX[i];
  }

  /** `setPoseIndex` followed by `getPoseIndex` gives back the ids, and
      leaves every pose lookup as it was. */
  lemma IndexRoundTrip(jar: seq<Cookie>, codec: Codec, ids: seq<string>, id: string)
    requires Lawful(codec) && WellFormed(jar)
    requires '=' !in id && id != "index"
    ensures PoseIndex(Upsert(jar, INDEX_KEY, codec.encodeIndex(ids)), codec) == ids
    ensures PoseCookie(Upsert(jar, INDEX_KEY, codec.encodeIndex(ids)), codec, id) == PoseCookie(jar, codec, id)
  {
    PoseKeyFacts(id);
    UpsertThenLookup(jar, INDEX_KEY, codec.encodeIndex(ids), PoseKey(id));
  }

  /** Different ids have different cookie names. */
  lemma PoseKeyInjective(a: string, b: string)
    requires a != b
    ensures PoseKey(a) != PoseKey(b)
  {
    assert PoseKey(a)[|POSE_PREFIX|..] == a;
    assert PoseKey(b)[|POSE_PREFIX|..] == b;
  }

  /** `setPoseCookie` followed by `getPoseCookie` gives back the pose, and
      leaves the index as it was. */
  lemma PoseRoundTrip(jar: seq<Cookie>, codec: Codec, pose: SavedPose)
    requires Lawful(codec) && WellFormed(jar)
    requires '=' !in pose.id && pose.id != "index"
    ensures PoseCookie(Upsert(jar, PoseKey(pose.id), codec.encodePose(pose)), codec, pose.id) == Some(pose)
    ensures PoseIndex(Upsert(jar, PoseKey(pose.id), codec.encodePose(pose)), codec) == PoseIndex(jar, codec)
  {
    var encoded := codec.encodePose(pose);
    assert encoded != "" && '=' !in encoded;
    assert codec.decodePose(encoded) == Some(pose);
    PoseKeyFacts(pose.id);
    UpsertThenLookup(jar, PoseKey(pose.id), encoded, INDEX_KEY);
  }

  /** Writing one pose leaves every other pose as it was. */
  lemma PoseWriteFrame(jar: seq<Cookie>, codec: Codec, pose: SavedPose, other: string)
    requires Lawful(codec) && WellFormed(jar)
    requires '=' !in pose.id && pose.id != "index" && '=' !in other && other != pose.id
    ensures PoseCookie(Upsert(jar, PoseKey(pose.id), codec.encodePose(pose)), codec, other) == PoseCookie(jar, codec, other)
  {
    var encoded := codec.encodePose(pose);
    assert '=' !in encoded;
    PoseKeyFacts(pose.id);
    PoseKeyInjective(pose.id, other);
    assert '=' !in PoseKey(other) by {
      assert forall i :: 0 <= i < |POSE_PREFIX| ==> PoseKey(other)[i] == POSE_PREFIX[i];
      assert PoseKey(other)[|POSE_PREFIX|..] == other;
    }
    UpsertThenLookup(jar, PoseKey(pose.id), encoded, PoseKey(other));
  }

  /** The lookups of a list of ids, in order. */
  function PoseCookieOf(jar: seq<Cookie>, codec: Codec, ids: seq<string>): (r: seq<Option<SavedPose>>)
    ensures |r| == |ids| && forall i :: 0 <= i < |ids| ==> r[i] == PoseCookie(jar, codec, ids[i])
  {
    if ids == [] then [] else PoseCookieOf(jar, codec, ids[..|ids| - 1]) + [PoseCookie(jar, codec, ids[|ids| - 1])]
  }

  /** The poses among a list of lookups, in order: what the loop of
      `loadPoses` collects. */
  function Kept(found: seq<Option<SavedPose>>): (r: seq<SavedPose>)
    ensures |r| <= |found|
    ensures |r| == |found| <==> forall i :: 0 <= i < |found| ==> found[i].Some?
    ensures forall k :: 0 <= k < |r| ==> Some(r[k]) in found
  {
    if found == [] then []
    else
      var init := found[..|found| - 1];
      var rest := Kept(init);
      assert found == init + [found[|found| - 1]];
      match found[|found| - 1]
      case None => rest
      case Some(p) => rest + [p]
  }

  /** One more id looked up keeps one more pose, when it is found. */
  lemma LookupStep(jar: seq<Cookie>, codec: Codec, ids: seq<string>, i: nat)
    requires i < |ids|
    ensures Kept(PoseCookieOf(jar, codec, ids[..i + 1]))
              == Kept(PoseCookieOf(jar, codec, ids[..i]))
                 + (if PoseCookie(jar, codec, ids[i]).Some? then [PoseCookie(jar, codec, ids[i]).value] else [])
  {
    assert ids[..i + 1][..i] == ids[..i];
    var before := PoseCookieOf(jar, codec, ids[..i]);
    var x := PoseCookie(jar, codec, ids[i]);
    assert PoseCookieOf(jar, codec, ids[..i + 1]) == before + [x];
    assert (before + [x])[..i] == before;
  }

  /** The poses of the ids whose cookie reads as a pose, in index order. */
  function LoadedPoses(jar: seq<Cookie>, codec: Codec, ids: seq<string>): seq<SavedPose>
  {
    Kept(PoseCookieOf(jar, codec, ids))
  }

  /** `poses.map(p => p.id)`. */
  function IdsOf(poses: seq<SavedPose>): (r: seq<string>)
    ensures |r| == |poses| && forall i :: 0 <= i < |poses| ==> r[i] == poses[i].id
  {
    if poses == [] then [] else IdsOf(poses[..|poses| - 1]) + [poses[|poses| - 1].id]
  }

  /** `poses.map(p => p.name)`. */
  function Names(poses: seq<SavedPose>): (r: seq<string>)
    ensures |r| == |poses| && forall i :: 0 <= i < |poses| ==> r[i] == poses[i].name
  {
    if poses == [] then [] else Names(poses[..|poses| - 1]) + [poses[|poses| - 1].name]
  }

  /** The ids whose lookup found a pose, in their original order. */
  function FoundIds(ids: seq<string>, found: seq<Option<SavedPose>>): (r: seq<string>)
    requires |found| == |ids|
    ensures |r| <= |ids|
    ensures forall i :: 0 <= i < |ids| && found[i].Some? ==> ids[i] in r
    ensures forall x :: x in r ==> exists i :: 0 <= i < |ids| && ids[i] == x && found[i].Some?
  {
    if ids == [] then []
    else
      var init := ids[..|ids| - 1];
      var last := ids[|ids| - 1];
      var rest := FoundIds(init, found[..|found| - 1]);
      assert ids == init + [last];
      assert forall i :: 0 <= i < |init| ==> found[..|found| - 1][i] == found[i];
      if found[|found| - 1].Some? then rest + [last] else rest
  }

  /** The ids `savePose` and `deletePose` are lemma'd for: free of `=`, and
      not "index", whose cookie name is the index cookie's. */
  predicate PlainId(id: string)
  {
    '=' !in id && id != "index"
  }

  /** The index lists plain ids only, and the pose cookie of every plain id
      holds a pose carrying that id, as `savePose` writes them (SavedKeepsIds,
      DeletedKeepsIds and CleanedKeepsIds show that the three jar updates
      keep this). */
  ghost predicate IdsConsistent(jar: seq<Cookie>, codec: Codec)
  {
    && (forall i :: 0 <= i < |PoseIndex(jar, codec)| ==> PlainId(PoseIndex(jar, codec)[i]))
    && (forall id :: PlainId(id) && PoseCookie(jar, codec, id).Some? ==> PoseCookie(jar, codec, id).value.id == id)
  }

  /** Each found pose carries the id that was looked up. */
  predicate IdsMatch(ids: seq<string>, found: seq<Option<SavedPose>>)
  {
    |found| == |ids| && forall i :: 0 <= i < |ids| && found[i].Some? ==> found[i].value.id == ids[i]
  }

  /** When each found pose carries its own id, the ids of the kept poses
      are the found ids, in their original order. */
  lemma {:induction false} KeptIdsAreFoundIds(ids: seq<string>, found: seq<Option<SavedPose>>)
    requires IdsMatch(ids, found)
    ensures IdsOf(Kept(found)) == FoundIds(ids, found)
    decreases |ids|
  {
    if ids != [] {
      var init := ids[..|ids| - 1];
      var finit := found[..|found| - 1];
      assert IdsMatch(init, finit) by {
        assert forall i :: 0 <= i < |init| ==> finit[i] == found[i] && init[i] == ids[i];
      }
      KeptIdsAreFoundIds(init, finit);
      var rest := Kept(finit);
      var last := found[|found| - 1];
      assert Kept(found) == rest + (if last.Some? then [last.value] else []);
      assert FoundIds(ids, found) == FoundIds(init, finit) + (if last.Some? then [ids[|ids| - 1]] else []);
      if last.Some? {
        IdsOfAppend(rest, last.value);
      }
    }
  }

  lemma IdsOfAppend(poses: seq<SavedPose>, p: SavedPose)
    ensures IdsOf(poses + [p]) == IdsOf(poses) + [p.id]
  {
    assert (poses + [p])[..|poses|] == poses;
  }

  /** When every id has a pose, none is filtered out. */
  lemma {:induction false} FoundAll(ids: seq<string>, found: seq<Option<SavedPose>>)
    requires |found| == |ids| && forall i :: 0 <= i < |found| ==> found[i].Some?
    ensures FoundIds(ids, found) == ids
    decreases |ids|
  {
    if ids != [] {
      var init := ids[..|ids| - 1];
      var finit := found[..|found| - 1];
      assert forall i :: 0 <= i < |finit| ==> finit[i] == found[i];
      FoundAll(init, finit);
      assert init + [ids[|ids| - 1]] == ids;
    }
  }

  /** The jar after the clean-up step of `loadPoses`: the index is
      rewritten to the loaded poses' ids only when some id had no pose. */
  function CleanedJar(jar: seq<Cookie>, codec: Codec): seq<Cookie>
  {
    var index := PoseIndex(jar, codec);
    var validPoseIds := IdsOf(LoadedPoses(jar, codec, index));
    if |validPoseIds| != |index| then Upsert(jar, INDEX_KEY, codec.encodeIndex(validPoseIds)) else jar
  }

  /** After the clean-up, the index lists exactly the ids that still have a
      pose, in their original order, and every pose reads as before. */
  lemma CleanedIndex(jar: seq<Cookie>, codec: Codec, id: string)
    requires Lawful(codec) && WellFormed(jar) && IdsConsistent(jar, codec)
    requires PlainId(id)
    ensures PoseIndex(CleanedJar(jar, codec), codec)
              == FoundIds(PoseIndex(jar, codec), PoseCookieOf(jar, codec, PoseIndex(jar, codec)))
    ensures PoseCookie(CleanedJar(jar, codec), codec, id) == PoseCookie(jar, codec, id)
    ensures WellFormed(CleanedJar(jar, codec))
  {
    var index := PoseIndex(jar, codec);
    var found := PoseCookieOf(jar, codec, index);
    assert IdsMatch(index, found);
    KeptIdsAreFoundIds(index, found);
    var validPoseIds := IdsOf(Kept(found));
    if |validPoseIds| != |index| {
      IndexRoundTrip(jar, codec, validPoseIds, id);
      PoseKeyFacts(id);
      UpsertWellFormed(jar, INDEX_KEY, codec.encodeIndex(validPoseIds));
    } else {
      FoundAll(index, found);
    }
  }

  /** Newest first. */
  predicate SortedByTimestampDesc(s: seq<SavedPose>)
  {
    forall i, j :: 0 <= i < j < |s| ==> s[i].timestamp >= s[j].timestamp
  }

  /** Places `p` before the first pose that is not newer than it. */
  function InsertByTimestamp(p: SavedPose, s: seq<SavedPose>): (r: seq<SavedPose>)
    requires SortedByTimestampDesc(s)
    ensures SortedByTimestampDesc(r)
    ensures multiset(r) == multiset(s) + multiset{p}
    ensures |r| == |s| + 1 && (r[0] == p || (s != [] && r[0] == s[0]))
  {
    if s == [] then [p]
    else if s[0].timestamp <= p.timestamp then
      ConsSorted(p, s);
      [p] + s
    else
      SortedTail(s);
      var rest := InsertByTimestamp(p, s[1..]);
      InsertBehind(p, s, rest);
      [s[0]] + rest
  }

  /** Inserting behind a head that is newer than `p` keeps the list sorted. */
  lemma InsertBehind(p: SavedPose, s: seq<SavedPose>, rest: seq<SavedPose>)
    requires s != [] && SortedByTimestampDesc(s) && s[0].timestamp > p.timestamp
    requires SortedByTimestampDesc(rest) && multiset(rest) == multiset(s[1..]) + multiset{p}
    requires |rest| == |s| && (rest[0] == p || (s[1..] != [] && rest[0] == s[1..][0]))
    ensures SortedByTimestampDesc([s[0]] + rest)
    ensures multiset([s[0]] + rest) == multiset(s) + multiset{p}
  {
    assert rest[0].timestamp <= s[0].timestamp by {
      if rest[0] != p {
        assert rest[0] == s[1];
      }
    }
    ConsSorted(s[0], rest);
    assert s == [s[0]] + s[1..];
  }

  /** The tail of a sorted list is sorted. */
  lemma SortedTail(s: seq<SavedPose>)
    requires s != [] && SortedByTimestampDesc(s)
    ensures SortedByTimestampDesc(s[1..])
  {
    forall i, j | 0 <= i < j < |s| - 1
      ensures s[1..][i].timestamp >= s[1..][j].timestamp
    {
      assert s[1..][i] == s[i + 1] && s[1..][j] == s[j + 1];
    }
  }

  /** A pose at least as new as the head of a sorted list can go in front. */
  lemma ConsSorted(x: SavedPose, t: seq<SavedPose>)
    requires SortedByTimestampDesc(t)
    requires t != [] ==> t[0].timestamp <= x.timestamp
    ensures SortedByTimestampDesc([x] + t)
  {
    var r := [x] + t;
    forall i, j | 0 <= i < j < |r|
      ensures r[i].timestamp >= r[j].timestamp
    {
      if i == 0 {
        assert r[j] == t[j - 1];
        assert t[0].timestamp >= t[j - 1].timestamp;
      } else {
        assert r[i] == t[i - 1] && r[j] == t[j - 1];
      }
    }
  }

  /** `poses.sort((a, b) => b.timestamp - a.timestamp)`: newest first; its
      stability is SortKeepsTies. */
  function SortByTimestampDesc(s: seq<SavedPose>): (r: seq<SavedPose>)
    ensures SortedByTimestampDesc(r)
    ensures multiset(r) == multiset(s)
  {
    if s == [] then []
    else
      assert s == [s[0]] + s[1..];
      InsertByTimestamp(s[0], SortByTimestampDesc(s[1..]))
  }

  /** The poses of `s` with timestamp `t`, in their order in `s`. */
  function WithTimestamp(s: seq<SavedPose>, t: int): (r: seq<SavedPose>)
    ensures |r| <= |s|
    ensures forall k :: 0 <= k < |r| ==> r[k].timestamp == t
  {
    if s == [] then [] else (if s[0].timestamp == t then [s[0]] else []) + WithTimestamp(s[1..], t)
  }

  /** The filter of a list with a known head. */
  lemma WithTimestampCons(x: SavedPose, u: seq<SavedPose>, t: int)
    ensures WithTimestamp([x] + u, t) == (if x.timestamp == t then [x] else []) + WithTimestamp(u, t)
  {
    assert ([x] + u)[0] == x && ([x] + u)[1..] == u;
  }

  /** Inserting `p` puts it ahead of every pose with the same timestamp and
      keeps the order of those poses. */
  lemma {:induction false} InsertKeepsTies(p: SavedPose, s: seq<SavedPose>, t: int)
    requires SortedByTimestampDesc(s)
    ensures WithTimestamp(InsertByTimestamp(p, s), t) == (if p.timestamp == t then [p] else []) + WithTimestamp(s, t)
    decreases |s|
  {
    if s == [] {
      assert InsertByTimestamp(p, s) == [p] + s;
      WithTimestampCons(p, s, t);
    } else if s[0].timestamp <= p.timestamp {
      assert InsertByTimestamp(p, s) == [p] + s;
      WithTimestampCons(p, s, t);
    } else {
      SortedTail(s);
      InsertKeepsTies(p, s[1..], t);
      InsertAfterNewerHead(p, s, t);
    }
  }

  /** The step of InsertKeepsTies where `p` goes behind a newer head. */
  lemma InsertAfterNewerHead(p: SavedPose, s: seq<SavedPose>, t: int)
    requires s != [] && SortedByTimestampDesc(s) && s[0].timestamp > p.timestamp
    requires WithTimestamp(InsertByTimestamp(p, s[1..]), t) == (if p.timestamp == t then [p] else []) + WithTimestamp(s[1..], t)
    ensures WithTimestamp(InsertByTimestamp(p, s), t) == (if p.timestamp == t then [p] else []) + WithTimestamp(s, t)
  {
    InsertUnfoldsBehind(p, s);
    assert s == [s[0]] + s[1..];
    TiesBehindHead(p, s[0], s[1..], InsertByTimestamp(p, s[1..]), t);
  }

  /** Behind a newer head, inserting recurses into the tail. */
  lemma InsertUnfoldsBehind(p: SavedPose, s: seq<SavedPose>)
    requires s != [] && SortedByTimestampDesc(s) && s[0].timestamp > p.timestamp
    ensures SortedByTimestampDesc(s[1..])
    ensures InsertByTimestamp(p, s) == [s[0]] + InsertByTimestamp(p, s[1..])
  {
    SortedTail(s);
  }

  /** The sequence step of InsertAfterNewerHead, with the insertion named. */
  lemma TiesBehindHead(p: SavedPose, h: SavedPose, u: seq<SavedPose>, rest: seq<SavedPose>, t: int)
    requires h.timestamp > p.timestamp
    requires WithTimestamp(rest, t) == (if p.timestamp == t then [p] else []) + WithTimestamp(u, t)
    ensures WithTimestamp([h] + rest, t) == (if p.timestamp == t then [p] else []) + WithTimestamp([h] + u, t)
  {
    WithTimestampCons(h, rest, t);
    WithTimestampCons(h, u, t);
  }

  /** The sort is stable: for every timestamp, the poses that carry it come
      out in the order they went in. With sortedness and the permutation
      this fixes the result: it is the order `Array.prototype.sort` gives. */
  lemma {:induction false} SortKeepsTies(s: seq<SavedPose>, t: int)
    ensures WithTimestamp(SortByTimestampDesc(s), t) == WithTimestamp(s, t)
    decreases |s|
  {
    if s != [] {
      var rest := SortByTimestampDesc(s[1..]);
      SortKeepsTies(s[1..], t);
      InsertKeepsTies(s[0], rest, t);
    }
  }

  /** What `loadPoses` returns for a jar. */
  function LoadPosesResult(jar: seq<Cookie>, codec: Codec): seq<SavedPose>
  {
    SortByTimestampDesc(LoadedPoses(jar, codec, PoseIndex(jar, codec)))
  }

  /** The `joints.forEach` of `savePose`, each joint overwriting the entry
      of its name. */
  method CollectJointValues(joints: seq<JointControlState>) returns (jointValues: map<string, real>)
    ensures jointValues == JointValues(joints)
  {
    jointValues := map[];
    for i := 0 to |joints|
      invariant jointValues == JointValues(joints[..i])
    {
      assert joints[..i + 1][..i] == joints[..i];
      jointValues := jointValues[joints[i].name := joints[i].currentValue];
    }
    assert joints[..|joints|] == joints;
  }

  /** The joints record of `savePose`: each name maps to the current value
      of the last joint of that name. */
  function JointValues(joints: seq<JointControlState>): (r: map<string, real>)
    ensures forall n :: n in r <==> exists i :: 0 <= i < |joints| && joints[i].name == n
    ensures forall i :: 0 <= i < |joints| && (forall j :: i < j < |joints| ==> joints[j].name != joints[i].name) ==>
              r[joints[i].name] == joints[i].currentValue
  {
    if joints == [] then map[]
    else
      var last := joints[|joints| - 1];
      var rest := JointValues(joints[..|joints| - 1]);
      JointValuesStep(joints, joints[..|joints| - 1], rest);
      rest[last.name := last.currentValue]
  }

  /** Recording the last joint on top of the record of the others keeps
      both properties of `JointValues`. */
  lemma JointValuesStep(joints: seq<JointControlState>, init: seq<JointControlState>, rest: map<string, real>)
    requires joints != [] && init == joints[..|joints| - 1]
    requires forall n :: n in rest <==> exists i :: 0 <= i < |init| && init[i].name == n
    requires forall i :: 0 <= i < |init| && (forall j :: i < j < |init| ==> init[j].name != init[i].name) ==>
               rest[init[i].name] == init[i].currentValue
    ensures var r := rest[joints[|joints| - 1].name := joints[|joints| - 1].currentValue];
      (forall n :: n in r <==> exists i :: 0 <= i < |joints| && joints[i].name == n) &&
      (forall i :: 0 <= i < |joints| && (forall j :: i < j < |joints| ==> joints[j].name != joints[i].name) ==>
         r[joints[i].name] == joints[i].currentValue)
  {
    var last := joints[|joints| - 1];
    var r := rest[last.name := last.currentValue];
    forall n
      ensures n in r <==> exists i :: 0 <= i < |joints| && joints[i].name == n
    {
      if n in r && n != last.name {
        var i :| 0 <= i < |init| && init[i].name == n;
        assert joints[i].name == n;
      }
      if n != last.name && (exists i :: 0 <= i < |joints| && joints[i].name == n) {
        var i :| 0 <= i < |joints| && joints[i].name == n;
        assert i < |init| && init[i].name == n;
      }
    }
    forall i | 0 <= i < |joints| && (forall j :: i < j < |joints| ==> joints[j].name != joints[i].name)
      ensures r[joints[i].name] == joints[i].currentValue
    {
      if i < |init| {
        assert init[i] == joints[i];
        assert forall j :: i < j < |init| ==> init[j].name != init[i].name by {
          forall j | i < j < |init|
            ensures init[j].name != init[i].name
          {
            assert init[j] == joints[j];
          }
        }
        assert joints[i].name != last.name by {
          assert i < |joints| - 1;
        }
      }
    }
  }

  /** `${name} (${counter})`. */
  function Suffixed(base: string, k: nat): string
  {
    base + " (" + NatToString(k) + ")"
  }

  /** Different counters give different names. */
  lemma SuffixedInjective(base: string, a: nat, b: nat)
    requires a != b
    ensures Suffixed(base, a) != Suffixed(base, b)
  {
    var sa := Suffixed(base, a);
    var sb := Suffixed(base, b);
    assert sa[|base| + 2 .. |sa| - 1] == NatToString(a);
    assert sb[|base| + 2 .. |sb| - 1] == NatToString(b);
    DecimalRoundTrip(a);
    DecimalRoundTrip(b);
  }

  /** The suffixed names for 1 to k. */
  function SuffixSet(base: string, k: nat): set<string>
  {
    if k == 0 then {} else SuffixSet(base, k - 1) + {Suffixed(base, k)}
  }

  /** A later counter's name is not among the earlier ones. */
  lemma {:induction false} SuffixNotEarlier(base: string, k: nat, m: nat)
    requires m < k
    ensures Suffixed(base, k) !in SuffixSet(base, m)
    decreases m
  {
    if m > 0 {
      SuffixNotEarlier(base, k, m - 1);
      SuffixedInjective(base, m, k);
    }
  }

  lemma {:induction false} SuffixSetFacts(base: string, k: nat)
    ensures |SuffixSet(base, k)| == k
    ensures forall j :: 1 <= j <= k ==> Suffixed(base, j) in SuffixSet(base, k)
    decreases k
  {
    if k > 0 {
      SuffixSetFacts(base, k - 1);
      SuffixNotEarlier(base, k, k - 1);
    }
  }

  /** The first m suffixed names, when all are used, are among the names. */
  lemma {:induction false} SuffixSetWithin(base: string, names: seq<string>, m: nat)
    requires forall j :: 1 <= j <= m ==> Suffixed(base, j) in names
    ensures SuffixSet(base, m) <= set x | x in names
    decreases m
  {
    if m > 0 {
      SuffixSetWithin(base, names, m - 1);
    }
  }

  /** If the names hold the first k suffixed names, there are at least k
      names. */
  lemma SuffixesBound(base: string, names: seq<string>, k: nat)
    requires forall j :: 1 <= j <= k ==> Suffixed(base, j) in names
    ensures k <= |names|
  {
    SuffixSetFacts(base, k);
    SuffixSetWithin(base, names, k);
    var present := set x | x in names;
    var suffixes := SuffixSet(base, k);
    assert suffixes <= present;
    assert present == suffixes + (present - suffixes);
    DistinctBound(names);
  }

  /** The least k from `from` on whose suffixed name is unused, given that
      those before it are used. */
  function LeastFreeFrom(base: string, names: seq<string>, from: nat): (r: nat)
    requires from >= 1
    requires forall j :: 1 <= j < from ==> Suffixed(base, j) in names
    ensures r >= from && Suffixed(base, r) !in names
    ensures forall j :: 1 <= j < r ==> Suffixed(base, j) in names
    decreases |names| + 1 - from
  {
    if Suffixed(base, from) !in names then from
    else
      SuffixesBound(base, names, from);
      LeastFreeFrom(base, names, from + 1)
  }

  /** The name the duplicate check settles on: the name itself when
      unused, otherwise `name (k)` for the least k >= 1 not in use. */
  function DedupName(base: string, names: seq<string>): (r: string)
    ensures r !in names
    ensures base !in names ==> r == base
    ensures base in names ==>
              exists k: nat :: k >= 1 && r == Suffixed(base, k) && forall j :: 1 <= j < k ==> Suffixed(base, j) in names
  {
    if base !in names then base else Suffixed(base, LeastFreeFrom(base, names, 1))
  }

  /** The duplicate-name loop of `savePose`; it always terminates. */
  method DeduplicateName(base: string, existingNames: seq<string>) returns (finalName: string)
    ensures finalName == DedupName(base, existingNames)
  {
    finalName := base;
    var counter: nat := 1;
    while finalName in existingNames
      invariant counter >= 1
      invariant counter == 1 ==> finalName == base
      invariant counter > 1 ==>
                  finalName == Suffixed(base, counter - 1) && base in existingNames
                  && forall j :: 1 <= j < counter - 1 ==> Suffixed(base, j) in existingNames
      decreases |existingNames| + 1 - counter
    {
      if counter > 1 {
        SuffixesBound(base, existingNames, counter - 1);
      }
      finalName := Suffixed(base, counter);
      counter := counter + 1;
    }
    if counter > 1 {
      var least := LeastFreeFrom(base, existingNames, 1);
      assert least == counter - 1;
    }
  }

  /** The pose `savePose` builds from its inputs and the poses already
      stored. */
  function NewPose(name: string, joints: seq<JointControlState>, categoryOrder: Option<seq<string>>,
                   id: string, now: int, existing: seq<SavedPose>): SavedPose
  {
    SavedPose(id, DedupName(Trim(name), Names(existing)), now, JointValues(joints), categoryOrder)
  }

  /** The final jar of a successful save: the pose cookie, then the index
      with the id appended. */
  function SavedJar(jar: seq<Cookie>, codec: Codec, pose: SavedPose): seq<Cookie>
  {
    var withPose := Upsert(jar, PoseKey(pose.id), codec.encodePose(pose));
    Upsert(withPose, INDEX_KEY, codec.encodeIndex(PoseIndex(withPose, codec) + [pose.id]))
  }

  /** A save appends exactly the new id to the index and makes the pose
      readable under it; other poses read as before. */
  lemma SaveEffects(jar: seq<Cookie>, codec: Codec, pose: SavedPose, other: string)
    requires Lawful(codec) && WellFormed(jar)
    requires '=' !in pose.id && pose.id != "index" && '=' !in other && other != "index"
    ensures PoseIndex(SavedJar(jar, codec, pose), codec) == PoseIndex(jar, codec) + [pose.id]
    ensures PoseCookie(SavedJar(jar, codec, pose), codec, pose.id) == Some(pose)
    ensures other != pose.id ==> PoseCookie(SavedJar(jar, codec, pose), codec, other) == PoseCookie(jar, codec, other)
  {
    var withPose := Upsert(jar, PoseKey(pose.id), codec.encodePose(pose));
    PoseKeyFacts(pose.id);
    PoseRoundTrip(jar, codec, pose);
    if other != pose.id {
      PoseWriteFrame(jar, codec, pose, other);
    }
    UpsertWellFormed(jar, PoseKey(pose.id), codec.encodePose(pose));
    IndexRoundTrip(withPose, codec, PoseIndex(withPose, codec) + [pose.id], pose.id);
    IndexRoundTrip(withPose, codec, PoseIndex(withPose, codec) + [pose.id], other);
  }

  /** The final jar of `deletePose`. */
  function DeletedJar(jar: seq<Cookie>, codec: Codec, id: string): seq<Cookie>
  {
    var removed := Remove(jar, PoseKey(id));
    Upsert(removed, INDEX_KEY, codec.encodeIndex(RemoveAll(PoseIndex(removed, codec), id)))
  }

  /** Removing a pose cookie: the pose no longer reads, the index and the
      other poses read as before. */
  lemma RemoveEffects(jar: seq<Cookie>, codec: Codec, id: string, other: string)
    requires WellFormed(jar)
    requires '=' !in id && id != "index" && '=' !in other && other != "index"
    ensures PoseIndex(Remove(jar, PoseKey(id)), codec) == PoseIndex(jar, codec)
    ensures PoseCookie(Remove(jar, PoseKey(id)), codec, id) == None
    ensures other != id ==> PoseCookie(Remove(jar, PoseKey(id)), codec, other) == PoseCookie(jar, codec, other)
  {
    PoseKeyFacts(id);
    PoseKeyFacts(other);
    RemoveThenLookup(jar, PoseKey(id), INDEX_KEY);
    if other != id {
      PoseKeyInjective(id, other);
      RemoveThenLookup(jar, PoseKey(id), PoseKey(other));
    }
  }

  /** A delete removes every occurrence of the id from the index, keeping
      the other ids in order, and the pose no longer reads. */
  lemma DeleteEffects(jar: seq<Cookie>, codec: Codec, id: string, other: string)
    requires Lawful(codec) && WellFormed(jar)
    requires '=' !in id && id != "index" && '=' !in other && other != "index"
    ensures PoseIndex(DeletedJar(jar, codec, id), codec) == RemoveAll(PoseIndex(jar, codec), id)
    ensures PoseCookie(DeletedJar(jar, codec, id), codec, id) == None
    ensures other != id ==> PoseCookie(DeletedJar(jar, codec, id), codec, other) == PoseCookie(jar, codec, other)
  {
    var removed := Remove(jar, PoseKey(id));
    RemoveEffects(jar, codec, id, other);
    var filtered := RemoveAll(PoseIndex(removed, codec), id);
    IndexRoundTrip(removed, codec, filtered, id);
    IndexRoundTrip(removed, codec, filtered, other);
  }

  /** A jar without cookies is consistent: no index, no pose. */
  lemma EmptyJarConsistent(codec: Codec)
    ensures IdsConsistent([], codec)
  {
    var empty: seq<Cookie> := [];
    forall id | PlainId(id)
      ensures PoseCookie(empty, codec, id).None?
    {
      assert CookieValue(empty, PoseKey(id)).None?;
    }
    assert CookieValue(empty, INDEX_KEY).None?;
  }

  /** A save of a pose with a plain id keeps every pose cookie holding its
      own id and the index listing plain ids. */
  lemma SavedKeepsIds(jar: seq<Cookie>, codec: Codec, pose: SavedPose)
    requires Lawful(codec) && WellFormed(jar) && IdsConsistent(jar, codec) && PlainId(pose.id)
    ensures IdsConsistent(SavedJar(jar, codec, pose), codec) && WellFormed(SavedJar(jar, codec, pose))
  {
    var saved := SavedJar(jar, codec, pose);
    var withPose := Upsert(jar, PoseKey(pose.id), codec.encodePose(pose));
    PoseKeyFacts(pose.id);
    UpsertWellFormed(jar, PoseKey(pose.id), codec.encodePose(pose));
    UpsertWellFormed(withPose, INDEX_KEY, codec.encodeIndex(PoseIndex(withPose, codec) + [pose.id]));
    forall id | PlainId(id) && PoseCookie(saved, codec, id).Some?
      ensures PoseCookie(saved, codec, id).value.id == id
    {
      SavedPoseHasId(jar, codec, pose, id);
    }
    SavedIndexPlain(jar, codec, pose);
  }

  /** One pose cookie of SavedKeepsIds. */
  lemma SavedPoseHasId(jar: seq<Cookie>, codec: Codec, pose: SavedPose, id: string)
    requires Lawful(codec) && WellFormed(jar) && IdsConsistent(jar, codec) && PlainId(pose.id) && PlainId(id)
    ensures PoseCookie(SavedJar(jar, codec, pose), codec, id).Some? ==> PoseCookie(SavedJar(jar, codec, pose), codec, id).value.id == id
  {
    SaveEffects(jar, codec, pose, id);
  }

  /** The index part of SavedKeepsIds. */
  lemma SavedIndexPlain(jar: seq<Cookie>, codec: Codec, pose: SavedPose)
    requires Lawful(codec) && WellFormed(jar) && PlainId(pose.id)
    requires forall i :: 0 <= i < |PoseIndex(jar, codec)| ==> PlainId(PoseIndex(jar, codec)[i])
    ensures forall i :: 0 <= i < |PoseIndex(SavedJar(jar, codec, pose), codec)| ==>
              PlainId(PoseIndex(SavedJar(jar, codec, pose), codec)[i])
  {
    SaveEffects(jar, codec, pose, "");
    AllPlainAppend(PoseIndex(jar, codec), pose.id);
  }

  /** Appending a plain id to a list of plain ids. */
  lemma AllPlainAppend(ids: seq<string>, id: string)
    requires (forall i :: 0 <= i < |ids| ==> PlainId(ids[i])) && PlainId(id)
    ensures forall i :: 0 <= i < |ids + [id]| ==> PlainId((ids + [id])[i])
  {
    assert forall i :: 0 <= i < |ids| ==> (ids + [id])[i] == ids[i];
  }

  /** A delete of a plain id keeps every pose cookie holding its own id and
      the index listing plain ids. */
  lemma DeletedKeepsIds(jar: seq<Cookie>, codec: Codec, id: string)
    requires Lawful(codec) && WellFormed(jar) && IdsConsistent(jar, codec) && PlainId(id)
    ensures IdsConsistent(DeletedJar(jar, codec, id), codec) && WellFormed(DeletedJar(jar, codec, id))
  {
    var deleted := DeletedJar(jar, codec, id);
    var removed := Remove(jar, PoseKey(id));
    PoseKeyFacts(id);
    UpsertWellFormed(removed, INDEX_KEY, codec.encodeIndex(RemoveAll(PoseIndex(removed, codec), id)));
    DeleteEffects(jar, codec, id, "");
    forall other | PlainId(other) && PoseCookie(deleted, codec, other).Some?
      ensures PoseCookie(deleted, codec, other).value.id == other
    {
      DeleteEffects(jar, codec, id, other);
    }
    var index := PoseIndex(jar, codec);
    assert PoseIndex(deleted, codec) == RemoveAll(index, id);
    assert forall x :: x in index ==> PlainId(x);
  }

  /** The clean-up of `loadPoses` keeps every pose cookie holding its own id
      and the index listing plain ids. */
  lemma CleanedKeepsIds(jar: seq<Cookie>, codec: Codec)
    requires Lawful(codec) && WellFormed(jar) && IdsConsistent(jar, codec)
    ensures IdsConsistent(CleanedJar(jar, codec), codec) && WellFormed(CleanedJar(jar, codec))
  {
    var cleaned := CleanedJar(jar, codec);
    var index := PoseIndex(jar, codec);
    CleanedIndex(jar, codec, "");
    forall id | PlainId(id) && PoseCookie(cleaned, codec, id).Some?
      ensures PoseCookie(cleaned, codec, id).value.id == id
    {
      CleanedIndex(jar, codec, id);
    }
    var kept := FoundIds(index, PoseCookieOf(jar, codec, index));
    assert PoseIndex(cleaned, codec) == kept;
    assert forall x :: x in index ==> PlainId(x);
    forall i | 0 <= i < |kept|
      ensures PlainId(kept[i])
    {
      assert kept[i] in kept;
    }
  }

  class CookieStorageService {
    /** `document.cookie`. */
    var jar: seq<Cookie>
    const codec: Codec

    constructor (jar: seq<Cookie>, codec: Codec)
      ensures this.jar == jar && this.codec == codec
    {
      this.jar := jar;
      this.codec := codec;
    }

    /** `setPoseIndex`. */
    method SetPoseIndex(poseIds: seq<string>)
      modifies this`jar
      ensures jar == Upsert(old(jar), INDEX_KEY, codec.encodeIndex(poseIds))
    {
      var encoded := codec.encodeIndex(poseIds);
      jar := Upsert(jar, INDEX_KEY, encoded);
    }

    /** `setPoseCookie`: an encoded pose over the size limit is refused and
        nothing is written. */
    method SetPoseCookie(pose: SavedPose) returns (r: Result<(), StorageError>)
      modifies this`jar
      ensures |codec.encodePose(pose)| > MAX_COOKIE_SIZE ==> r == Failure(PoseTooLarge(pose.name)) && jar == old(jar)
      ensures |codec.encodePose(pose)| <= MAX_COOKIE_SIZE ==>
                r == Success(()) && jar == Upsert(old(jar), PoseKey(pose.id), codec.encodePose(pose))
    {
      var encoded := codec.encodePose(pose);
      if |encoded| > MAX_COOKIE_SIZE {
        return Failure(PoseTooLarge(pose.name));
      }
      jar := Upsert(jar, PoseKey(pose.id), encoded);
      return Success(());
    }

    /** `deletePoseCookie`: an expired write removes the cookie. */
    method DeletePoseCookie(poseId: string)
      modifies this`jar
      ensures jar == Remove(old(jar), PoseKey(poseId))
    {
      jar := Remove(jar, PoseKey(poseId));
    }

    /** The loop of `loadPoses`: each id's cookie is read, and the poses
        found are collected in index order. */
    method CollectPoses(poseIndex: seq<string>) returns (loaded: seq<SavedPose>)
      ensures loaded == LoadedPoses(jar, codec, poseIndex)
    {
      loaded := [];
      for i := 0 to |poseIndex|
        invariant loaded == Kept(PoseCookieOf(jar, codec, poseIndex[..i]))
      {
        var pose := PoseCookie(jar, codec, poseIndex[i]);
        LookupStep(jar, codec, poseIndex, i);
        if pose.Some? {
          loaded := loaded + [pose.value];
        }
      }
      assert poseIndex[..|poseIndex|] == poseIndex;
    }

    /** `loadPoses`: the poses of the index that still have a cookie, newest
        first; the index is rewritten only when some id had none. */
    method LoadPoses() returns (poses: seq<SavedPose>)
      modifies this`jar
      ensures poses == LoadPosesResult(old(jar), codec)
      ensures jar == CleanedJar(old(jar), codec)
    {
      var poseIndex := PoseIndex(jar, codec);
      var loaded := CollectPoses(poseIndex);
      var validPoseIds := IdsOf(loaded);
      if |validPoseIds| != |poseIndex| {
        SetPoseIndex(validPoseIds);
      }
      poses := SortByTimestampDesc(loaded);
    }

    /** `savePose` with the generated id and the clock reading as inputs. It
        first loads the poses (which may clean up the index), builds the
        joints record, trims and de-duplicates the name, then writes the
        pose cookie and, only if that succeeded, appends the id to the
        index. */
    method SavePose(name: string, joints: seq<JointControlState>, categoryOrder: Option<seq<string>>,
                    id: string, now: int) returns (r: Result<SavedPose, StorageError>)
      modifies this`jar
      ensures var cleaned := CleanedJar(old(jar), codec);
              var pose := NewPose(name, joints, categoryOrder, id, now, LoadPosesResult(old(jar), codec));
              && (|codec.encodePose(pose)| > MAX_COOKIE_SIZE ==> r == Failure(PoseTooLarge(pose.name)) && jar == cleaned)
              && (|codec.encodePose(pose)| <= MAX_COOKIE_SIZE ==> r == Success(pose) && jar == SavedJar(cleaned, codec, pose))
    {
      var existingPoses := LoadPoses();
      var jointValues := CollectJointValues(joints);
      var finalName := DeduplicateName(Trim(name), Names(existingPoses));
      var newPose := SavedPose(id, finalName, now, jointValues, categoryOrder);
      var written := SetPoseCookie(newPose);
      if written.Failure? {
        return Failure(written.error);
      }
      var poseIndex := PoseIndex(jar, codec);
      SetPoseIndex(poseIndex + [id]);
      return Success(newPose);
    }

    /** `deletePose`: the pose cookie is removed, then every occurrence of
        the id is filtered out of the index. */
    method DeletePose(id: string)
      modifies this`jar
      ensures jar == DeletedJar(old(jar), codec, id)
    {
      DeletePoseCookie(id);
      var poseIndex := PoseIndex(jar, codec);
      var filteredIndex := RemoveAll(poseIndex, id);
      SetPoseIndex(filteredIndex);
    }

    /** `loadPose`: exactly what the pose's cookie reads as; a pose is only
        ever loaded from a non-empty cookie of that pose's name. */
    function LoadPose(id: string): (r: Option<SavedPose>)
      reads this
      ensures r.Some? ==> CookieValue(jar, PoseKey(id)).Some? && CookieValue(jar, PoseKey(id)).value != ""
      ensures r.Some? ==> codec.decodePose(CookieValue(jar, PoseKey(id)).value) == r
    {
      PoseCookie(jar, codec, id)
    }
  }
}
