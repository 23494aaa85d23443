/** utils/get_stats.py: the raw archive path of a chain, derived from its gesamt id
    `<entry>:<chain>`. The rest of the script drives native and external programs. */
module GetStats {
  import opened Py
  import opened BinaryArchive

  /** `strid.split(':')[0]`: the id before the first `:`. */
  function Gesamt(strid: string): (g: string)
    ensures ':' !in g
    ensures StartsWith(strid, g)
    ensures g == strid <==> ':' !in strid
    ensures g != strid ==> strid[|g|] == ':'
  {
    Split(strid, ':')[0]
  }

  /** `strid[1:3]`: the characters at indices 1 and 2, as far as the id reaches. */
  function RawDir(strid: string): (d: string)
    ensures |d| == if |strid| >= 3 then 2 else if |strid| >= 1 then |strid| - 1 else 0
    ensures forall k :: 0 <= k < |d| ==> d[k] == strid[k + 1]
  {
    Slice(strid, 1, 3)
  }

  /** `get_raw_from_gesamt` */
  function GetRawFromGesamt(strid: string): string {
    RawDir(strid) + "/" + Gesamt(strid)
  }

  /** The path is the directory, one `/` and the entry id; for an id of at least three
      characters both parts read back from fixed positions. */
  lemma RawPathParts(strid: string)
    ensures var path, d := GetRawFromGesamt(strid), RawDir(strid);
      && |path| == |d| + 1 + |Gesamt(strid)|
      && path[..|d|] == d && path[|d|] == '/' && path[|d| + 1..] == Gesamt(strid)
    ensures |strid| >= 3 ==>
      var path := GetRawFromGesamt(strid);
      && path[..2] == strid[1..3] && path[2] == '/' && path[3..] == Gesamt(strid)
  {
    var path, d := GetRawFromGesamt(strid), RawDir(strid);
    assert path == d + ("/" + Gesamt(strid));
    if |strid| >= 3 {
      assert d == strid[1..3];
    }
  }

  /** All chains of one entry share its path: for an entry id of at least three
      characters, a chain id `<entry>:<chain>` built as `create_binaries` builds it maps
      to the path of the bare entry id, whose directory is the entry's `get_dir`. */
  lemma RawOfChainId(pdbId: string, chain: string)
    requires ':' !in pdbId && |pdbId| >= 3
    ensures GetRawFromGesamt(pdbId + ":" + chain) == GetRawFromGesamt(pdbId)
    ensures '/' !in pdbId ==> GetRawFromGesamt(pdbId) == GetDir(pdbId) + "/" + pdbId
  {
    ChainIdParts(pdbId, chain);
    if '/' !in pdbId {
      PathNameOfName(pdbId);
    }
  }

  /** The two parts of a chain id are those of its entry id. */
  lemma ChainIdParts(pdbId: string, chain: string)
    requires ':' !in pdbId && |pdbId| >= 3
    ensures Gesamt(pdbId + ":" + chain) == pdbId == Gesamt(pdbId)
    ensures RawDir(pdbId + ":" + chain) == RawDir(pdbId)
  {
    SplitAtFirst(pdbId, ':', chain);
    assert pdbId + ":" + chain == pdbId + [':'] + chain;
    RawDirOfLonger(pdbId, ":" + chain);
  }

  /** Only the first three characters decide the directory. */
  lemma RawDirOfLonger(s: string, t: string)
    requires |s| >= 3
    ensures RawDir(s + t) == RawDir(s)
  {
    var u := s + t;
    assert Slice(u, 1, 3) == u[1..3];
    assert Slice(s, 1, 3) == s[1..3];
    assert u[1..3] == s[1..3];
  }

  /** With a shorter entry id the `:` falls inside `strid[1:3]`: the chain id `ab:X` has
      the directory `b:` where the entry id `ab` has `b`. */
  lemma ShortIdKeepsColon()
    ensures RawDir("ab:X") == "b:" && RawDir("ab") == "b"
  {
  }
}
