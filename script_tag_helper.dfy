/**
 * The `bundle` attribute on `<script>` elements (ScriptTagHelper.cs): with the
 * pipeline enabled, the element's `src` points at the bundle route with a
 * version query parameter; with it disabled, the element is replaced by one
 * `<script>` element per source file of the bundle.
 */
module Taghelpers {
  import opened Wrappers
  import opened Pipeline
  import opened Razor

  /**
   * The helpers inherited from `BaseTagHelper`, whose bodies (file hashing,
   * the memory cache, the quote table) are not part of this model; every
   * property below holds whatever functions these are.
   */
  datatype BaseHelpers = BaseHelpers(
    generateHash: Option<Asset> -> string,
    addFileVersionToPath: string -> string,
    getQuote: ValueStyle -> string)

  /** How a render ends: normally, or on the null asset an unknown route yields. */
  datatype Outcome = Completed | UnknownBundle(route: string)

  datatype RenderResult = RenderResult(outcome: Outcome, after: OutputState)

  /** `string.IsNullOrEmpty`. */
  predicate IsNullOrEmpty(s: Option<string>)
  {
    s.None? || s.value == ""
  }

  /** `s.IndexOf(c)`: the position of the first `c` in `s`, or -1. */
  function IndexOf(s: string, c: char): (r: int)
    ensures -1 <= r < |s|
    ensures r == -1 <==> c !in s
    ensures r >= 0 ==> s[r] == c && c !in s[..r]
  {
    if |s| == 0 then -1
    else if s[0] == c then 0
    else
      var k := IndexOf(s[1..], c);
      if k == -1 then -1
      else
        assert s[..k + 1] == [s[0]] + s[1..][..k];
        k + 1
  }

  /** The lookup key and the separator that precedes the version parameter. */
  datatype RouteSplit = RouteSplit(key: string, sep: char)

  /**
   * Bundled mode's split of the route on its first `?`: the key is what comes
   * before it (all of the route when there is none), and the version is
   * appended with `&` when the route already has a query, with `?` otherwise.
   */
  function SplitRoute(bundle: string): (r: RouteSplit)
    ensures r.sep == (if '?' in bundle then '&' else '?')
    ensures r.key <= bundle && '?' !in r.key
    ensures '?' in bundle ==> bundle[|r.key|] == '?'
    ensures '?' !in bundle ==> r.key == bundle
  {
    var token := IndexOf(bundle, '?');
    if token > -1 then RouteSplit(bundle[..token], '&') else RouteSplit(bundle, '?')
  }

  /** The key is exactly the part of the route before its first `?`. */
  lemma SplitRouteAtFirstQuery(route: string, n: int)
    requires 0 <= n < |route| && route[n] == '?' && '?' !in route[..n]
    ensures SplitRoute(route) == RouteSplit(route[..n], '&')
  {
  }

  /** The `src` written in bundled mode: the whole route, the separator, and `v=<hash>`. */
  function BundledSrc(bundle: string, assets: seq<Asset>, h: BaseHelpers): string
  {
    var split := SplitRoute(bundle);
    bundle + [split.sep] + "v=" + h.generateHash(FirstOrDefault(assets, split.key))
  }

  /**
   * The rewritten `src` keeps the caller's route, query included, as its
   * prefix, follows it with the separator chosen by SplitRoute and then the
   * version parameter of the asset found under the key.
   */
  lemma BundledSrcShape(bundle: string, assets: seq<Asset>, h: BaseHelpers)
    ensures var src := BundledSrc(bundle, assets, h);
      |src| > |bundle| && src[..|bundle|] == bundle &&
      src[|bundle|] == (if '?' in bundle then '&' else '?') &&
      src[|bundle| + 1..] == "v=" + h.generateHash(FirstOrDefault(assets, SplitRoute(bundle).key))
  {
  }

  /**
   * Appending the version never changes the lookup key: splitting the
   * rewritten `src` again yields the same key as the original route, and the
   * rewritten `src` always carries a query.
   */
  lemma {:induction false} BundledSrcKeepsKey(bundle: string, assets: seq<Asset>, h: BaseHelpers)
    ensures SplitRoute(BundledSrc(bundle, assets, h)).key == SplitRoute(bundle).key
    ensures SplitRoute(BundledSrc(bundle, assets, h)).sep == '&'
  {
    var src := BundledSrc(bundle, assets, h);
    var key := SplitRoute(bundle).key;
    var key' := SplitRoute(src).key;
    BundledSrcShape(bundle, assets, h);
    assert src[|bundle|] == '?' || '?' in bundle;
    assert '?' in src;
    assert src[|key|] == '?';
  }

  /** One attribute as re-serialised by `WriteIndividualTags`. */
  function AttributeText(a: Attribute, getQuote: ValueStyle -> string): string
  {
    if a.style == Minimized then a.name
    else
      var quote := getQuote(a.style);
      a.name + "=" + quote + a.value + quote
  }

  /** The serialised attributes, one per attribute, in the attributes' order. */
  function AttributeTexts(attrs: seq<Attribute>, getQuote: ValueStyle -> string): (r: seq<string>)
    ensures |r| == |attrs|
    ensures forall k :: 0 <= k < |attrs| ==> r[k] == AttributeText(attrs[k], getQuote)
  {
    if |attrs| == 0 then []
    else [AttributeText(attrs[0], getQuote)] + AttributeTexts(attrs[1..], getQuote)
  }

  /**
   * Parts separated by single spaces, built from the end: no parts give the
   * empty string, and one more part adds a space and that part at the end.
   */
  function SpaceSeparated(parts: seq<string>): string
  {
    if |parts| == 0 then ""
    else if |parts| == 1 then parts[0]
    else SpaceSeparated(parts[..|parts| - 1]) + " " + parts[|parts| - 1]
  }

  /** Read from the front, the same string is the first part, a space, and the rest. */
  lemma {:induction false} SpaceSeparatedCons(parts: seq<string>)
    requires |parts| >= 2
    ensures SpaceSeparated(parts) == parts[0] + " " + SpaceSeparated(parts[1..])
  {
    var init := parts[..|parts| - 1];
    var tail := parts[1..];
    if |parts| > 2 {
      SpaceSeparatedCons(init);
      assert init[1..] == tail[..|tail| - 1];
    } else {
      assert init == [parts[0]];
    }
  }

  /** `string.Join(" ", parts)`: the parts, in order, separated by single spaces. */
  function Join(parts: seq<string>): (r: string)
    ensures r == SpaceSeparated(parts)
  {
    if |parts| == 0 then ""
    else if |parts| == 1 then parts[0]
    else
      SpaceSeparatedCons(parts);
      parts[0] + " " + Join(parts[1..])
  }

  /** The element emitted for one source file. */
  function ScriptTag(src: string, attributes: string): string
  {
    "<script src=\"" + src + "\" " + attributes + "></script>"
  }

  /** The elements emitted in expanded mode, one per source file. */
  function ExpandedTags(files: seq<string>, attributes: string, addFileVersionToPath: string -> string): (r: seq<string>)
    ensures |r| == |files|
  {
    if |files| == 0 then []
    else
      ExpandedTags(files[..|files| - 1], attributes, addFileVersionToPath) +
      [ScriptTag(addFileVersionToPath(files[|files| - 1]), attributes)]
  }

  /**
   * Expanded mode emits exactly one element per source file, in the order of
   * the files, each with the versioned path of its file and the same
   * attribute string.
   */
  lemma {:induction false} ExpandedTagsAt(files: seq<string>, attributes: string, addFileVersionToPath: string -> string)
    ensures |ExpandedTags(files, attributes, addFileVersionToPath)| == |files|
    ensures forall i :: 0 <= i < |files| ==>
      ExpandedTags(files, attributes, addFileVersionToPath)[i] == ScriptTag(addFileVersionToPath(files[i]), attributes)
  {
    if |files| > 0 {
      ExpandedTagsAt(files[..|files| - 1], attributes, addFileVersionToPath);
    }
  }

  /** `WriteIndividualTags`, as a function of the output's state before it runs. */
  function ExpandedRender(bundle: string, assets: seq<Asset>, h: BaseHelpers, before: OutputState): (r: RenderResult)
    ensures r.after.suppressed && r.after.attributes == before.attributes
    ensures r.outcome == (if exists i :: 0 <= i < |assets| && assets[i].route == bundle then Completed else UnknownBundle(bundle))
    ensures r.outcome.UnknownBundle? ==> r.after.postElement == []
  {
    var suppressed := OutputState(before.attributes, true, []);
    match FirstOrDefault(assets, bundle)
    case None => RenderResult(UnknownBundle(bundle), suppressed)
    case Some(asset) =>
      var attributes := Join(AttributeTexts(before.attributes, h.getQuote));
      RenderResult(Completed, suppressed.(postElement := ExpandedTags(asset.sourceFiles, attributes, h.addFileVersionToPath)))
  }

  /** `Process`, as a function of the bundle route, the pipeline and the output's state before it runs. */
  function Render(bundle: Option<string>, pipeline: Config, h: BaseHelpers, before: OutputState): (r: RenderResult)
    ensures IsNullOrEmpty(bundle) ==> r == RenderResult(Completed, before)
    ensures r.outcome.UnknownBundle? ==> !IsNullOrEmpty(bundle) && !pipeline.enabled
    ensures !IsNullOrEmpty(bundle) && !pipeline.enabled ==>
      r.after.suppressed && r.after.attributes == before.attributes
  {
    if IsNullOrEmpty(bundle) then RenderResult(Completed, before)
    else if pipeline.enabled then
      var src := Attribute("src", BundledSrc(bundle.value, pipeline.assets, h), DoubleQuotes);
      RenderResult(Completed, before.(attributes := WithAttributeSet(before.attributes, src)))
    else ExpandedRender(bundle.value, pipeline.assets, h, before)
  }

  /**
   * Bundled mode: the render completes, the element keeps its place in the
   * page, nothing is appended after it, exactly one `src` attribute remains
   * and it holds the versioned route, and every other attribute is kept.
   */
  lemma BundledModeSetsSrc(bundle: string, pipeline: Config, h: BaseHelpers, before: OutputState)
    requires bundle != "" && pipeline.enabled
    ensures var r := Render(Some(bundle), pipeline, h, before);
      r.outcome == Completed &&
      r.after.suppressed == before.suppressed &&
      r.after.postElement == before.postElement &&
      WithName(r.after.attributes, "src") == [Attribute("src", BundledSrc(bundle, pipeline.assets, h), DoubleQuotes)] &&
      WithoutName(r.after.attributes, "src") == WithoutName(before.attributes, "src")
  {
    WithAttributeSetSpec(before.attributes, Attribute("src", BundledSrc(bundle, pipeline.assets, h), DoubleQuotes));
  }

  /**
   * Expanded mode with a known route: the original element is suppressed and
   * replaced by one element per source file of the asset found under the
   * whole route, in file order, each carrying the versioned file path and the
   * element's attributes re-serialised in their order and joined by spaces.
   */
  lemma ExpandedModeEmitsPerFile(bundle: string, pipeline: Config, h: BaseHelpers, before: OutputState, asset: Asset)
    requires bundle != "" && !pipeline.enabled
    requires FirstOrDefault(pipeline.assets, bundle) == Some(asset)
    ensures var r := Render(Some(bundle), pipeline, h, before);
      r.outcome == Completed && r.after.suppressed && r.after.attributes == before.attributes &&
      |r.after.postElement| == |asset.sourceFiles| &&
      forall i :: 0 <= i < |asset.sourceFiles| ==>
        r.after.postElement[i] ==
          ScriptTag(h.addFileVersionToPath(asset.sourceFiles[i]), Join(AttributeTexts(before.attributes, h.getQuote)))
  {
    ExpandedTagsAt(asset.sourceFiles, Join(AttributeTexts(before.attributes, h.getQuote)), h.addFileVersionToPath);
  }

  /**
   * Expanded mode with a route no asset has: the render fails on the null
   * asset, after the element was already suppressed, and emits no markup.
   */
  lemma ExpandedModeUnknownRoute(bundle: string, pipeline: Config, h: BaseHelpers, before: OutputState)
    requires bundle != "" && !pipeline.enabled
    requires forall i :: 0 <= i < |pipeline.assets| ==> pipeline.assets[i].route != bundle
    ensures Render(Some(bundle), pipeline, h, before) ==
      RenderResult(UnknownBundle(bundle), OutputState(before.attributes, true, []))
  {
  }

  /**
   * The two modes look the route up under different keys: for a route with a
   * query, bundled mode finds the asset registered under the part before `?`,
   * while expanded mode looks up the whole route and, when no registered
   * route contains `?`, fails on the null asset.
   */
  lemma ModesUseDifferentKeys(bundle: string, assets: seq<Asset>, h: BaseHelpers, before: OutputState, i: int)
    requires '?' in bundle
    requires forall k :: 0 <= k < |assets| ==> '?' !in assets[k].route
    requires IsFirstMatch(assets, SplitRoute(bundle).key, i)
    ensures Render(Some(bundle), Config(true, assets), h, before).outcome == Completed
    ensures BundledSrc(bundle, assets, h) == bundle + "&v=" + h.generateHash(Some(assets[i]))
    ensures Render(Some(bundle), Config(false, assets), h, before).outcome == UnknownBundle(bundle)
  {
  }

  /**
   * A route without a query (`/bundle.js`) gets `?v=<hash>`; one with a
   * query (`/bundle.js?x=1`) keeps it, is looked up under the part before
   * `?`, and gets `&v=<hash>`.
   */
  lemma BundledSrcOfPlainRoute(route: string, assets: seq<Asset>, h: BaseHelpers)
    requires '?' !in route
    ensures BundledSrc(route, assets, h) == route + "?v=" + h.generateHash(FirstOrDefault(assets, route))
  {
  }

  lemma BundledSrcOfQueryRoute(path: string, query: string, assets: seq<Asset>, h: BaseHelpers)
    requires '?' !in path
    ensures BundledSrc(path + "?" + query, assets, h) ==
      path + "?" + query + "&v=" + h.generateHash(FirstOrDefault(assets, path))
  {
    var route := path + "?" + query;
    assert route[..|path|] == path;
    SplitRouteAtFirstQuery(route, |path|);
  }

  /**
   * An element written `<script bundle="..." defer type="module">` whose
   * bundle has two files is replaced by two elements, in file order, each
   * ending in ` defer type="module"></script>`.
   */
  lemma ExpandedExample(route: string, file1: string, file2: string, defer: Attribute, typ: Attribute, h: BaseHelpers)
    requires route != ""
    requires defer.style == Minimized && typ.style == DoubleQuotes && h.getQuote(DoubleQuotes) == "\""
    ensures var before := OutputState([defer, typ], false, []);
      var attributes := defer.name + " " + typ.name + "=\"" + typ.value + "\"";
      Render(Some(route), Config(false, [Asset(route, [file1, file2])]), h, before) ==
        RenderResult(Completed, OutputState([defer, typ], true, [
          ScriptTag(h.addFileVersionToPath(file1), attributes),
          ScriptTag(h.addFileVersionToPath(file2), attributes)]))
  {
    var asset := Asset(route, [file1, file2]);
    var texts := AttributeTexts([defer, typ], h.getQuote);
    var attributes := defer.name + " " + typ.name + "=\"" + typ.value + "\"";
    assert Join(texts) == texts[0] + " " + Join(texts[1..]);
    assert Join(texts) == attributes;
    assert IsFirstMatch([asset], route, 0);
    ExpandedTagsAt(asset.sourceFiles, attributes, h.addFileVersionToPath);
  }

  /** The source file's own tag helper: the `bundle` attribute and the base-class helpers. */
  class ScriptTagHelper {
    var bundle: Option<string>
    const helpers: BaseHelpers

    constructor (helpers: BaseHelpers)
      ensures this.helpers == helpers && bundle == None
    {
      this.helpers := helpers;
      bundle := None;
    }

    /** Processes one `<script bundle="...">` element. */
    method Process(output: TagHelperOutput, pipeline: Config) returns (outcome: Outcome)
      modifies output
      ensures RenderResult(outcome, output.State()) == Render(bundle, pipeline, helpers, old(output.State()))
    {
      outcome := Completed;
      if !IsNullOrEmpty(bundle) {
        if pipeline.enabled {
          var route := bundle.value;
          var sep := '?';
          var token := IndexOf(bundle.value, sep);
          if token > -1 {
            route := bundle.value[..token];
            sep := '&';
          }
          var asset := FirstOrDefault(pipeline.assets, route);
          var href := bundle.value + [sep] + "v=" + helpers.generateHash(asset);
          output.SetAttribute("src", href);
        } else {
          outcome := WriteIndividualTags(output, pipeline.assets);
        }
      }
    }

    /** Replaces the element by one `<script>` element per source file of the bundle. */
    method WriteIndividualTags(output: TagHelperOutput, assets: seq<Asset>) returns (outcome: Outcome)
      requires bundle.Some?
      modifies output
      ensures RenderResult(outcome, output.State()) == ExpandedRender(bundle.value, assets, helpers, old(output.State()))
    {
      var asset := FirstOrDefault(assets, bundle.value);
      output.SuppressOutput();

      var attrs: seq<string> := [];
      var i := 0;
      while i < |output.attributes|
        invariant 0 <= i <= |output.attributes|
        invariant output.State() == OutputState(old(output.attributes), true, [])
        invariant |attrs| == i
        invariant forall k :: 0 <= k < i ==> attrs[k] == AttributeText(output.attributes[k], helpers.getQuote)
      {
        var item := output.attributes[i];
        var attr := item.name;
        if item.style != Minimized {
          var quote := helpers.getQuote(item.style);
          attr := attr + "=" + quote + item.value + quote;
        }
        attrs := attrs + [attr];
        i := i + 1;
      }
      assert attrs == AttributeTexts(old(output.attributes), helpers.getQuote);

      if asset.None? {
        return UnknownBundle(bundle.value);
      }
      var files := asset.value.sourceFiles;
      for j := 0 to |files|
        invariant output.attributes == old(output.attributes) && output.suppressed
        invariant output.postElement == ExpandedTags(files[..j], Join(attrs), helpers.addFileVersionToPath)
      {
        var src := helpers.addFileVersionToPath(files[j]);
        output.AppendPostElement(ScriptTag(src, Join(attrs)));
        assert files[..j + 1][..j] == files[..j];
      }
      assert files[..|files|] == files;
      outcome := Completed;
    }
  }
}
