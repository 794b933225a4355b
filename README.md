# Script bundle tag helper

A Dafny model of the `bundle` tag helper of the Bundler (WebOptimizer) web
asset pipeline. The helper handles `<script bundle="...">` elements in Razor
views. When the asset pipeline is enabled, it points the element's `src` at
the bundle route with a cache-busting `v=<hash>` query parameter. When the
pipeline is disabled, it suppresses the element and writes one `<script>`
element per source file of the bundle, in order. Each of those elements repeats
the original element's attributes.

Layout:

- `wrappers.dfy` (`Wrappers`): `Option`. It stands for a C# reference that may be null.
- `pipeline.dfy` (`Pipeline`): the asset registry (`Asset`, `Config`) and the first-match lookup `FirstOrDefault`.
- `razor.dfy` (`Razor`): the minimal output object the helper writes to. It holds the ordered attribute list, the suppressed flag and the post-element buffer, with `SetAttribute`, `SuppressOutput` and `AppendPostElement`.
- `script_tag_helper.dfy` (`Taghelpers`): the route split, the `src` rewrite, attribute serialisation and tag emission. `Render` is the pure specification of the whole `Process` call. The class `ScriptTagHelper` holds the imperative `Process` and `WriteIndividualTags`, and each one is proved equal to its specification function.

Parameters replace several things the source reads from elsewhere:

- The global pipeline state `Extensions.Pipeline.Enabled` and `.Assets` is the `Config` parameter.
- The base-class helpers `GenerateHash`, `AddFileVersionToPath` and `GetQuote` are arbitrary functions in the `BaseHelpers` value. Every property holds whatever those functions are.

The model keeps two behaviours of the code as written:

- Bundled mode looks the asset up under the part of the route before the first `?`. Expanded mode looks it up under the whole route (`ModesUseDifferentKeys`).
- In expanded mode an unknown route makes `FirstOrDefault` return null, and the code then dereferences it. The model turns this into the outcome `UnknownBundle(route)`. By that point the element has already been suppressed. Bundled mode passes the possibly-null lookup result straight to `GenerateHash`, so the model passes an `Option<Asset>`.

A hardened helper would fail fast with a descriptive error on an unknown route. The code instead dereferences null in expanded mode, and the model follows the code.

## Model

| member | source | states |
|---|---|---|
| Pipeline.FirstOrDefault | Bundler/Taghelpers/ScriptTagHelper.cs:47 | The lookup is None exactly when no asset's route equals the key. Otherwise it is the asset at the first position, in list order, whose route equals the key exactly. |
| Pipeline.FirstOrDefaultFindsFirst | Bundler/Taghelpers/ScriptTagHelper.cs:62 | Converse: if position i holds the first exact route match, the lookup returns that asset. |
| Taghelpers.IndexOf | Bundler/Taghelpers/ScriptTagHelper.cs:39 | The result is -1 exactly when the character is absent. Otherwise it is a position holding the character, with no earlier occurrence. |
| Taghelpers.SplitRoute | Bundler/Taghelpers/ScriptTagHelper.cs:37-45 | The separator is `&` if the route contains `?`, and `?` otherwise. The key is a `?`-free prefix of the route. It is the whole route when there is no `?`, and otherwise it is followed by a `?`. |
| Taghelpers.SplitRouteAtFirstQuery | Bundler/Taghelpers/ScriptTagHelper.cs:39-44 | When position n holds the first `?`, the split is exactly the prefix before n with the separator `&`. |
| Taghelpers.BundledSrcShape | Bundler/Taghelpers/ScriptTagHelper.cs:48 | The bundled `src` starts with the original, unsplit route (query included). Next comes the chosen separator, then `v=` and the hash of the asset found under the key. |
| Taghelpers.BundledSrcKeepsKey | Bundler/Taghelpers/ScriptTagHelper.cs:37-48 | Splitting the rewritten `src` again gives the same lookup key as the original route, with separator `&`. Appending the version never redirects the lookup. |
| Taghelpers.BundledSrcOfPlainRoute | Bundler/Taghelpers/ScriptTagHelper.cs:37-48 | A route without `?` becomes `route?v=<hash of the asset under the whole route>`. |
| Taghelpers.BundledSrcOfQueryRoute | Bundler/Taghelpers/ScriptTagHelper.cs:41-48 | `path?query` keeps its query, is looked up under `path`, and becomes `path?query&v=<hash>`. |
| Taghelpers.AttributeTexts | Bundler/Taghelpers/ScriptTagHelper.cs:65-78 | There is one serialised string per attribute, in the attributes' order. Each is the bare name for a minimised attribute and `name=<quote>value<quote>` for any other. |
| Taghelpers.Join | Bundler/Taghelpers/ScriptTagHelper.cs:83 | For every number of parts, the joined string equals `SpaceSeparated`, a separate definition built from the end. No parts give the empty string, one part gives that part, and each further part adds exactly one space and that part at the end. |
| Taghelpers.SpaceSeparatedCons | Bundler/Taghelpers/ScriptTagHelper.cs:83 | Read from the front, the space-separated string of two or more parts is the first part, one space, and the rest. |
| Taghelpers.ExpandedTagsAt | Bundler/Taghelpers/ScriptTagHelper.cs:80-84 | There are as many emitted elements as source files. Element i is the `<script>` for the versioned path of file i, and every element carries the same attribute string. |
| Taghelpers.Render | Bundler/Taghelpers/ScriptTagHelper.cs:31-58 | A null or empty bundle leaves the output unchanged and completes. Expanded mode always suppresses the element and keeps its attributes. In the model, `GenerateHash` is a total function, so only expanded mode yields `UnknownBundle`. |
| Taghelpers.BundledModeSetsSrc | Bundler/Taghelpers/ScriptTagHelper.cs:35-50 | Bundled mode completes and neither suppresses nor appends. Exactly one `src` attribute remains and it holds the versioned route. All attributes of other names are kept in order. |
| Taghelpers.ExpandedModeEmitsPerFile | Bundler/Taghelpers/ScriptTagHelper.cs:60-85 | Expanded mode with a known route completes and suppresses the element. It emits one element per source file, in file order. Each element has the file's versioned path and the attributes serialised and joined by single spaces. |
| Taghelpers.ExpandedModeUnknownRoute | Bundler/Taghelpers/ScriptTagHelper.cs:62-80 | Expanded mode with a route no asset has yields `UnknownBundle(route)`. The element is already suppressed and no markup is emitted. |
| Taghelpers.ModesUseDifferentKeys | Bundler/Taghelpers/ScriptTagHelper.cs:37-62 | Take a route with a query, where the part before `?` is registered and no registered route contains `?`. Bundled mode finds that asset and appends `&v=<its hash>`. Expanded mode looks up the whole route and fails. |
| Taghelpers.ExpandedExample | Bundler/Taghelpers/ScriptTagHelper.cs:67-83 | Take a two-file bundle whose element has a minimised attribute and a double-quoted one. It renders as two elements, in file order. Each element is the `<script>` for its file's versioned path followed by `<name> <name>="<value>"`. |
| Taghelpers.IsNullOrEmpty | Bundler/Taghelpers/ScriptTagHelper.cs:33 | Definition of `string.IsNullOrEmpty`, with no contract of its own. `Taghelpers.Render` states that such a bundle leaves the output unchanged. |
| Taghelpers.BundledSrc | Bundler/Taghelpers/ScriptTagHelper.cs:48 | Definition of the bundled-mode `href`, with no contract of its own. `Taghelpers.BundledSrcShape` and `Taghelpers.BundledSrcKeepsKey` carry its properties. |
| Taghelpers.AttributeText | Bundler/Taghelpers/ScriptTagHelper.cs:69-75 | Definition of one attribute's text, with no contract of its own. `Taghelpers.AttributeTexts` states it for the whole list, in order. |
| Taghelpers.ScriptTag | Bundler/Taghelpers/ScriptTagHelper.cs:83 | Definition of the interpolated `<script src="…" attrs></script>` string, with no contract of its own. `Taghelpers.ExpandedTagsAt` states which element uses it. |
| Taghelpers.ExpandedTags | Bundler/Taghelpers/ScriptTagHelper.cs:80-84 | There is one emitted element per source file. `Taghelpers.ExpandedTagsAt` states what each element is. |
| Taghelpers.ExpandedRender | Bundler/Taghelpers/ScriptTagHelper.cs:60-85 | Expanded mode always suppresses the element and keeps its attributes. It completes exactly when some asset's route equals the whole bundle string. Otherwise it yields `UnknownBundle` with an empty post-element buffer. |
| Taghelpers.ScriptTagHelper.Process | Bundler/Taghelpers/ScriptTagHelper.cs:31-58 | The outcome and the new output state are exactly `Render` of the bundle, the pipeline and the old output state. |
| Taghelpers.ScriptTagHelper.WriteIndividualTags | Bundler/Taghelpers/ScriptTagHelper.cs:60-85 | Its two loops (serialising the attributes, appending one tag per file) leave exactly the outcome and state that the expanded-mode specification gives. |
| Taghelpers.ScriptTagHelper.constructor | Bundler/Taghelpers/ScriptTagHelper.cs:18-20 | The helper keeps the base-class helpers it is given, and its bundle starts unset. |
| Razor.WithAttributeSetSpec | Bundler/Taghelpers/ScriptTagHelper.cs:49 | After `SetAttribute`, the only attribute of that name is the new one and all other attributes are kept in order. When no attribute had the name, the new one is appended. |
| Razor.WithAttributeSetReplacesFirst | Bundler/Taghelpers/ScriptTagHelper.cs:49 | When attributes with the name already exist, the new attribute takes the place of the first of them. Everything before it is kept as is, and after it only attributes of other names remain. |
| Razor.WithAttributeSet | Bundler/Taghelpers/ScriptTagHelper.cs:49 | Definition of `SetAttribute` on the attribute list, with no contract of its own. `Razor.WithAttributeSetSpec` and `Razor.WithAttributeSetReplacesFirst` carry its properties. |
| Razor.TagHelperOutput.SetAttribute | Bundler/Taghelpers/ScriptTagHelper.cs:49 | The attribute list becomes the list with the double-quoted attribute set. The flag and the buffer are unchanged. |
| Razor.TagHelperOutput.SuppressOutput | Bundler/Taghelpers/ScriptTagHelper.cs:63 | The element becomes suppressed with an empty post-element buffer, and its attributes are unchanged. |
| Razor.TagHelperOutput.AppendPostElement | Bundler/Taghelpers/ScriptTagHelper.cs:83 | The buffer grows by exactly the given markup at its end. Nothing else changes. |

## Left out

- `GenerateHash`, `AddFileVersionToPath` and `GetQuote` are defined in `BaseTagHelper`, which is not part of this model. They read files through the hosting environment and memoise in a memory cache. Here they are arbitrary functions, so hash content, collisions and the version cache are not modelled. What `GenerateHash` does with a null asset is not modelled either.
- The Razor framework is reduced to the state the helper touches. This leaves out `TagHelperContext`, the element binding and the real output and attribute types. `base.Process` is the framework's default, which does nothing, and it is not modelled.
- Taghelpers.Render: what happens in bundled mode on an unknown route is left open. The code passes the null lookup result to `GenerateHash`, which is not part of this model and may dereference it. In the model that call returns a value, and the render completes.
- Razor.WithAttributeSetSpec: Razor compares attribute names case-insensitively, and the model compares them exactly. The only name set is `src`, and the model does not capture a `SRC` attribute being replaced.
- `SuppressOutput` is modelled as setting the flag and clearing the post-element buffer. The framework's other buffers (pre-element, content) are not modelled.
- `Bundle` is modelled as `Option<string>`. Null routes inside the asset list and a null `SourceFiles` are not modelled, since the registry builds neither.
- Concurrency across requests and the memory cache's memoisation are infrastructure and are not modelled. So is re-rendering being idempotent: every specification here is a function, so it is deterministic by construction.
- HTML escaping: the code does none for the post-element markup, and the model writes those paths and attribute values verbatim. The model stops at the attribute list, so the bundled-mode `src` is its unencoded value. When Razor writes the tag, it encodes string attribute values, so `&v=` appears as `&amp;v=`.
