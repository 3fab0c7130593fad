/** The platform registry of the page and the string ids the page stores. */
module Platforms {
  import Selection

  /** The `'tiktok' | 'reels' | 'youtube'` union. */
  datatype PlatformId = TikTok | Reels | YouTube

  /** The string the page stores for an id. */
  function IdName(id: PlatformId): string {
    match id
    case TikTok => "tiktok"
    case Reels => "reels"
    case YouTube => "youtube"
  }

  datatype Platform = Platform(id: PlatformId, name: string, color: string, isConnected: bool)

  /** The three platforms the page offers, in badge order. */
  const Registry: seq<Platform> := [
    Platform(TikTok, "TikTok", "bg-black text-white", true),
    Platform(Reels, "Instagram Reels", "bg-gradient-to-r from-purple-500 to-pink-500 text-white", true),
    Platform(YouTube, "YouTube Shorts", "bg-red-500 text-white", false)
  ]

  /** Some badge carries `id`. */
  ghost predicate InRegistry(id: PlatformId) {
    exists i :: 0 <= i < |Registry| && Registry[i].id == id
  }

  /** Every id has exactly one badge, and only YouTube's is not connected. */
  lemma RegistryShape()
    ensures forall id :: InRegistry(id)
    ensures forall i, j :: 0 <= i < j < |Registry| ==> Registry[i].id != Registry[j].id
    ensures forall i :: 0 <= i < |Registry| ==> (!Registry[i].isConnected <==> Registry[i].id == YouTube)
  {
    assert Registry[0].id == TikTok && Registry[1].id == Reels && Registry[2].id == YouTube;
    assert !Registry[2].isConnected;
  }

  /** Distinct ids have distinct strings. */
  lemma IdNameInjective(a: PlatformId, b: PlatformId)
    ensures IdName(a) == IdName(b) <==> a == b
  {
    if a != b {
      assert IdName(a)[0] != IdName(b)[0];
    }
  }

  /** The page's `string[]` for a list of ids. */
  function Names(ids: seq<PlatformId>): (r: seq<string>)
    ensures |r| == |ids|
    ensures forall i :: 0 <= i < |ids| ==> r[i] == IdName(ids[i])
  {
    seq(|ids|, i requires 0 <= i < |ids| => IdName(ids[i]))
  }

  /** Two id lists have the same strings exactly when they are the same
      list. */
  lemma NamesInjective(a: seq<PlatformId>, b: seq<PlatformId>)
    ensures Names(a) == Names(b) <==> a == b
  {
    if Names(a) == Names(b) {
      forall i | 0 <= i < |a| ensures a[i] == b[i] {
        IdNameInjective(a[i], b[i]);
      }
    }
  }

  lemma NamesMember(ids: seq<PlatformId>, x: PlatformId)
    ensures IdName(x) in Names(ids) <==> x in ids
  {
    if IdName(x) in Names(ids) {
      var i :| 0 <= i < |ids| && Names(ids)[i] == IdName(x);
      IdNameInjective(ids[i], x);
    }
  }

  lemma {:induction false} NamesRemove(ids: seq<PlatformId>, x: PlatformId)
    ensures Names(Selection.Remove(ids, x)) == Selection.Remove(Names(ids), IdName(x))
  {
    if |ids| > 0 {
      assert Names(ids)[1..] == Names(ids[1..]);
      assert Names(ids)[0] == IdName(ids[0]);
      IdNameInjective(ids[0], x);
      NamesRemove(ids[1..], x);
      if ids[0] != x {
        assert Names([ids[0]] + Selection.Remove(ids[1..], x))
            == [IdName(ids[0])] + Names(Selection.Remove(ids[1..], x));
      }
    }
  }

  /** Toggling an id and then writing the list as strings is the same as
      toggling its string in the string list: the model's toggle is the
      page's toggle. */
  lemma NamesToggle(ids: seq<PlatformId>, x: PlatformId)
    ensures Names(Selection.Toggle(ids, x)) == Selection.Toggle(Names(ids), IdName(x))
  {
    NamesMember(ids, x);
    if x in ids {
      NamesRemove(ids, x);
    } else {
      assert Names(ids + [x]) == Names(ids) + [IdName(x)];
    }
  }
}
