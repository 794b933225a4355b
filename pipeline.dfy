/**
 * The asset registry that the tag helper reads: `Extensions.Pipeline.Enabled`
 * and `Extensions.Pipeline.Assets`, passed in explicitly instead of read from
 * process-wide state.
 */
module Pipeline {
  import opened Wrappers

  /** A registered asset: its route and its source files, in load order. */
  datatype Asset = Asset(route: string, sourceFiles: seq<string>)

  /** The pipeline switch and the registered assets, in registration order. */
  datatype Config = Config(enabled: bool, assets: seq<Asset>)

  /** Position `i` holds the first asset, in list order, whose route is `route`. */
  ghost predicate IsFirstMatch(assets: seq<Asset>, route: string, i: int)
  {
    0 <= i < |assets| && assets[i].route == route &&
    forall j :: 0 <= j < i ==> assets[j].route != route
  }

  /**
   * `Assets.FirstOrDefault(t => t.Route.Equals(route))`: the first asset, in
   * list order, whose route equals `route` exactly (ordinal, case-sensitive),
   * or None when there is none.
   */
  function FirstOrDefault(assets: seq<Asset>, route: string): (r: Option<Asset>)
    ensures r.None? <==> forall i :: 0 <= i < |assets| ==> assets[i].route != route
    ensures r.Some? ==> exists i :: IsFirstMatch(assets, route, i) && assets[i] == r.value
  {
    if |assets| == 0 then None
    else if assets[0].route == route then
      assert IsFirstMatch(assets, route, 0);
      Some(assets[0])
    else
      var r := FirstOrDefault(assets[1..], route);
      assert r.Some? ==> exists i :: IsFirstMatch(assets, route, i) && assets[i] == r.value by {
        if r.Some? {
          var k :| IsFirstMatch(assets[1..], route, k) && assets[1..][k] == r.value;
          assert IsFirstMatch(assets, route, k + 1) by {
            forall j | 0 <= j < k + 1 ensures assets[j].route != route {
              if j > 0 { assert assets[j] == assets[1..][j - 1]; }
            }
          }
        }
      }
      r
  }

  /** The converse direction: the first asset whose route matches is the one found. */
  lemma FirstOrDefaultFindsFirst(assets: seq<Asset>, route: string, i: int)
    requires IsFirstMatch(assets, route, i)
    ensures FirstOrDefault(assets, route) == Some(assets[i])
  {
  }
}
