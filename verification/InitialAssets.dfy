/** collectInitialAssets: the files a page loads at first, by depth-first search over the manifest's imports. */
module InitialAssets {
  import opened Basics

  /** An array element that should be a string but need not be. */
  datatype JsValue = Text(text: string) | Other

  /** A manifest entry; an absent file reads as the empty string, an absent list as the empty one. */
  datatype Entry = Entry(file: string, css: seq<string>, imports: seq<string>, dynamicImports: seq<JsValue>)

  type Manifest = map<string, Entry>

  predicate EndsWith(s: string, suffix: string) {
    |suffix| <= |s| && s[|s| - |suffix|..] == suffix
  }

  predicate StartsWith(s: string, prefix: string) {
    prefix <= s
  }

  predicate IsInitialDynamic(v: JsValue) {
    v.Text? && !StartsWith(v.text, "src/pages/")
  }

  // ---- What is to be collected ----

  ghost predicate IsPath(m: Manifest, p: seq<string>) {
    && p != []
    && forall i :: 0 <= i < |p| - 1 ==> p[i] in m && p[i + 1] in m[p[i]].imports
  }

  /** `to` is reached from one of `roots` by static imports. */
  ghost predicate Reachable(m: Manifest, roots: set<string>, to: string) {
    exists p :: IsPath(m, p) && p[0] in roots && p[|p| - 1] == to
  }

  ghost function InitialTexts(values: seq<JsValue>): set<string> {
    set v | v in values && IsInitialDynamic(v) :: v.text
  }

  /** The entry, and its dynamic imports outside the pages. */
  ghost function Roots(m: Manifest, entryKey: string): set<string> {
    {entryKey} + if entryKey in m then InitialTexts(m[entryKey].dynamicImports) else {}
  }

  predicate GivesJs(m: Manifest, key: string, file: string) {
    key in m && m[key].file == file && file != "" && EndsWith(file, ".js")
  }

  predicate GivesCss(m: Manifest, key: string, file: string) {
    key in m && file in m[key].css
  }

  lemma TextTests(file: string, v: JsValue)
    ensures EndsWith(file, ".js") <==> exists stem: string :: file == stem + ".js"
    ensures IsInitialDynamic(v) <==> v.Text? && !exists page: string :: v.text == "src/pages/" + page
  {
    if EndsWith(file, ".js") {
      assert file == file[..|file| - 3] + ".js";
    }
    if v.Text? && StartsWith(v.text, "src/pages/") {
      assert v.text == "src/pages/" + v.text[10..];
    }
  }

  /**
   * What is collected, by the texts themselves: files that end in ".js", style sheets, and of the entry's dynamic
   * imports those that do not begin with "src/pages/".
   */
  lemma CollectedByText(m: Manifest, entryKey: string, key: string, file: string)
    ensures GivesJs(m, key, file) <==> key in m && m[key].file == file && exists stem: string :: file == stem + ".js"
    ensures GivesCss(m, key, file) <==> key in m && file in m[key].css
    ensures key in Roots(m, entryKey) <==>
              key == entryKey || (entryKey in m && Text(key) in m[entryKey].dynamicImports && !exists page: string :: key == "src/pages/" + page)
  {
    TextTests(file, Text(key));
  }

  ghost predicate NoDuplicates(s: seq<string>) {
    forall i, j :: 0 <= i < j < |s| ==> s[i] != s[j]
  }

  /** A JavaScript Set keeps insertion order. */
  function Add(s: seq<string>, x: string): seq<string> {
    if x in s then s else s + [x]
  }

  lemma AddOnce(s: seq<string>, x: string)
    requires NoDuplicates(s)
    ensures NoDuplicates(Add(s, x)) && Elements(Add(s, x)) == Elements(s) + {x}
  {
  }

  // ---- Paths ----

  lemma ReachSelf(m: Manifest, key: string)
    ensures Reachable(m, {key}, key)
  {
    assert IsPath(m, [key]);
  }

  lemma ReachThrough(m: Manifest, key: string, next: string, to: string)
    requires key in m && next in m[key].imports && Reachable(m, {next}, to)
    ensures Reachable(m, {key}, to)
  {
    var p :| IsPath(m, p) && p[0] in {next} && p[|p| - 1] == to;
    var q := [key] + p;
    assert forall i :: 0 <= i < |q| - 1 ==> q[i] in m && q[i + 1] in m[q[i]].imports;
    assert IsPath(m, q) && q[0] in {key} && q[|q| - 1] == to;
  }

  lemma ReachFromMore(m: Manifest, key: string, roots: set<string>, to: string)
    requires Reachable(m, {key}, to) && key in roots
    ensures Reachable(m, roots, to)
  {
    var p :| IsPath(m, p) && p[0] in {key} && p[|p| - 1] == to;
    assert p[0] in roots;
  }

  /** Everything in `s` that is in the manifest has its imports in `s`. */
  ghost predicate ClosedIn(m: Manifest, keys: set<string>, s: set<string>) {
    forall k, x :: k in keys && k in m && x in m[k].imports ==> x in s
  }

  lemma {:induction false} ClosedHoldsPath(m: Manifest, s: set<string>, p: seq<string>, n: nat)
    requires ClosedIn(m, s, s) && IsPath(m, p) && p[0] in s && n < |p|
    ensures p[n] in s
  {
    if n > 0 {
      ClosedHoldsPath(m, s, p, n - 1);
      assert p[n] in m[p[n - 1]].imports;
    }
  }

  ghost predicate AllReached(m: Manifest, key: string, keys: set<string>) {
    forall k :: k in keys ==> Reachable(m, {key}, k)
  }

  ghost predicate AllReachable(m: Manifest, roots: set<string>, keys: set<string>) {
    forall k :: k in keys ==> Reachable(m, roots, k)
  }

  lemma ReachedThrough(m: Manifest, key: string, next: string, start: set<string>, before: set<string>, after: set<string>)
    requires key in m && next in m[key].imports
    requires AllReached(m, key, before - start) && AllReached(m, next, after - before)
    ensures AllReached(m, key, after - start)
  {
    forall k | k in after - start ensures Reachable(m, {key}, k) {
      if k in before {
        assert k in before - start;
      } else {
        assert k in after - before;
        ReachThrough(m, key, next, k);
      }
    }
  }

  lemma AllReachedFromRoots(m: Manifest, key: string, roots: set<string>, after: set<string>, before: set<string>)
    requires key in roots && AllReached(m, key, after - before) && AllReachable(m, roots, before)
    ensures AllReachable(m, roots, after)
  {
    forall k | k in after ensures Reachable(m, roots, k) {
      if k !in before {
        assert k in after - before;
        ReachFromMore(m, key, roots, k);
      }
    }
  }

  lemma ClosedTogether(m: Manifest, a: set<string>, s: set<string>, b: set<string>, t: set<string>)
    requires ClosedIn(m, a, s) && ClosedIn(m, b, t) && s <= t
    ensures ClosedIn(m, a + b, t)
  {
  }

  lemma OneMoreImport(m: Manifest, key: string, start: set<string>, before: set<string>, after: set<string>)
    requires start + {key} <= before <= after
    requires ClosedIn(m, before - start - {key}, before) && ClosedIn(m, after - before, after)
    ensures ClosedIn(m, after - start - {key}, after)
  {
    ClosedTogether(m, before - start - {key}, before, after - before, after);
    assert after - start - {key} == (before - start - {key}) + (after - before);
  }

  lemma KeyToo(m: Manifest, key: string, start: set<string>, visited: set<string>)
    requires key in visited && key !in start
    requires ClosedIn(m, visited - start - {key}, visited) && ClosedIn(m, {key}, visited)
    ensures ClosedIn(m, visited - start, visited)
  {
    ClosedTogether(m, visited - start - {key}, visited, {key}, visited);
    assert visited - start == (visited - start - {key}) + {key};
  }

  lemma ImportsClosed(m: Manifest, key: string, s: set<string>)
    requires key in m && Elements(m[key].imports) <= s
    ensures ClosedIn(m, {key}, s)
  {
    forall x | x in m[key].imports ensures x in s {
      assert x in Elements(m[key].imports);
    }
  }

  /** A closed set that holds the roots, and only what they reach, is what they reach. */
  lemma VisitedIsReachable(m: Manifest, roots: set<string>, visited: set<string>)
    requires ClosedIn(m, visited, visited) && roots <= visited && AllReachable(m, roots, visited)
    ensures forall k :: k in visited <==> Reachable(m, roots, k)
  {
    forall k | Reachable(m, roots, k) ensures k in visited {
      var p :| IsPath(m, p) && p[0] in roots && p[|p| - 1] == k;
      ClosedHoldsPath(m, visited, p, |p| - 1);
    }
  }

  // ---- Files ----

  ghost function Elements(s: seq<string>): set<string> {
    set x | x in s
  }

  ghost function JsOf(m: Manifest, keys: set<string>): set<string> {
    set k | k in keys && k in m && GivesJs(m, k, m[k].file) :: m[k].file
  }

  ghost function CssOf(m: Manifest, keys: set<string>): set<string> {
    set k, f | k in keys && k in m && f in m[k].css :: f
  }

  lemma OneMoreKey(m: Manifest, keys: set<string>, key: string)
    requires key in m
    ensures JsOf(m, keys + {key}) == JsOf(m, keys) + if GivesJs(m, key, m[key].file) then {m[key].file} else {}
    ensures CssOf(m, keys + {key}) == CssOf(m, keys) + Elements(m[key].css)
  {
  }

  lemma MissingKey(m: Manifest, keys: set<string>, key: string)
    requires key !in m
    ensures JsOf(m, keys + {key}) == JsOf(m, keys) && CssOf(m, keys + {key}) == CssOf(m, keys)
  {
  }

  lemma FilesOfReachable(m: Manifest, roots: set<string>, visited: set<string>, js: seq<string>, css: seq<string>)
    requires forall k :: k in visited <==> Reachable(m, roots, k)
    requires Elements(js) == JsOf(m, visited) && Elements(css) == CssOf(m, visited)
    ensures forall f :: f in js <==> exists k :: Reachable(m, roots, k) && GivesJs(m, k, f)
    ensures forall f :: f in css <==> exists k :: Reachable(m, roots, k) && GivesCss(m, k, f)
  {
    assert forall f :: f in js <==> f in Elements(js);
    assert forall f :: f in css <==> f in Elements(css);
  }

  lemma OneMoreText(values: seq<JsValue>, i: nat)
    requires i < |values|
    ensures InitialTexts(values[..i + 1]) == InitialTexts(values[..i]) + if IsInitialDynamic(values[i]) then {values[i].text} else {}
    ensures IsInitialDynamic(values[i]) ==> values[i].text in InitialTexts(values)
  {
    assert values[..i + 1] == values[..i] + [values[i]];
    assert values[i] in values;
  }

  /** Every key the search can meet. */
  ghost function Universe(m: Manifest, roots: set<string>): set<string> {
    roots + m.Keys + set k, x | k in m && x in m[k].imports :: x
  }

  lemma UniverseClosed(m: Manifest, roots: set<string>)
    ensures ClosedIn(m, Universe(m, roots), Universe(m, roots)) && roots <= Universe(m, roots)
  {
  }

  /** The loop over an entry's style sheets. */
  method AddAll(files: seq<string>, more: seq<string>) returns (all: seq<string>)
    requires NoDuplicates(files)
    ensures NoDuplicates(all) && Elements(all) == Elements(files) + Elements(more)
  {
    all := files;
    for i := 0 to |more|
      invariant NoDuplicates(all) && Elements(all) == Elements(files) + Elements(more[..i])
    {
      AddOnce(all, more[i]);
      all := Add(all, more[i]);
      assert Elements(more[..i + 1]) == Elements(more[..i]) + {more[i]};
    }
    assert more[..|more|] == more;
  }

  // ---- The search ----

  class Collector {
    const manifest: Manifest
    var visited: set<string>
    var js: seq<string>
    var css: seq<string>

    /** The files of the visited keys, each once. */
    ghost predicate Collected()
      reads this
    {
      NoDuplicates(js) && NoDuplicates(css) && Elements(js) == JsOf(manifest, visited) && Elements(css) == CssOf(manifest, visited)
    }

    constructor (m: Manifest)
      ensures manifest == m && visited == {} && js == [] && css == [] && Collected()
    {
      manifest := m;
      visited, js, css := {}, [], [];
    }

    /** Adds the files of a key that is not yet among the visited. */
    method Record(key: string)
      requires Collected() && key in manifest
      modifies this`js, this`css
      ensures NoDuplicates(js) && NoDuplicates(css)
      ensures Elements(js) == JsOf(manifest, visited + {key}) && Elements(css) == CssOf(manifest, visited + {key})
    {
      var entry := manifest[key];
      if entry.file != "" && EndsWith(entry.file, ".js") {
        AddOnce(js, entry.file);
        js := Add(js, entry.file);
      }
      css := AddAll(css, entry.css);
      OneMoreKey(manifest, visited, key);
    }

    /**
     * Everything newly visited is reached from `key` and has its imports visited, cycles and missing keys
     * included.
     */
    method Visit(key: string, ghost universe: set<string>)
      requires Collected()
      requires key in universe && visited <= universe && ClosedIn(manifest, universe, universe)
      modifies this
      ensures Collected()
      ensures old(visited) + {key} <= visited <= universe
      ensures AllReached(manifest, key, visited - old(visited))
      ensures ClosedIn(manifest, visited - old(visited), visited)
      decreases universe - visited
    {
      ghost var start := visited;
      if key in visited {
        return;
      }
      ReachSelf(manifest, key);
      if key in manifest {
        Record(key);
      } else {
        MissingKey(manifest, visited, key);
      }
      visited := visited + {key};
      if key !in manifest {
        return;
      }
      var imports := manifest[key].imports;
      for i := 0 to |imports|
        invariant Collected()
        invariant start + {key} <= visited <= universe
        invariant AllReached(manifest, key, visited - start)
        invariant ClosedIn(manifest, visited - start - {key}, visited)
        invariant Elements(imports[..i]) <= visited
      {
        ghost var before := visited;
        assert imports[i] in imports;
        Visit(imports[i], universe);
        ReachedThrough(manifest, key, imports[i], start, before, visited);
        OneMoreImport(manifest, key, start, before, visited);
        assert Elements(imports[..i + 1]) == Elements(imports[..i]) + {imports[i]};
      }
      assert imports[..|imports|] == imports;
      ImportsClosed(manifest, key, visited);
      KeyToo(manifest, key, start, visited);
    }
  }

  /**
   * Exactly the .js files and the style sheets of the reachable keys, each once. The search ends on every
   * manifest.
   */
  method CollectInitialAssets(manifest: Manifest, entryKey: string) returns (js: seq<string>, css: seq<string>)
    ensures NoDuplicates(js) && NoDuplicates(css)
    ensures forall f :: f in js <==> exists k :: Reachable(manifest, Roots(manifest, entryKey), k) && GivesJs(manifest, k, f)
    ensures forall f :: f in css <==> exists k :: Reachable(manifest, Roots(manifest, entryKey), k) && GivesCss(manifest, k, f)
  {
    ghost var roots := Roots(manifest, entryKey);
    ghost var universe := Universe(manifest, roots);
    UniverseClosed(manifest, roots);
    var collector := new Collector(manifest);
    collector.Visit(entryKey, universe);
    AllReachedFromRoots(manifest, entryKey, roots, collector.visited, {});
    var dynamicImports := if entryKey in manifest then manifest[entryKey].dynamicImports else [];
    for i := 0 to |dynamicImports|
      invariant collector.manifest == manifest && collector.Collected()
      invariant entryKey in collector.visited && collector.visited <= universe
      invariant ClosedIn(manifest, collector.visited, collector.visited)
      invariant AllReachable(manifest, roots, collector.visited)
      invariant InitialTexts(dynamicImports[..i]) <= collector.visited
    {
      OneMoreText(dynamicImports, i);
      if IsInitialDynamic(dynamicImports[i]) {
        var dynamicImportKey := dynamicImports[i].text;
        ghost var before := collector.visited;
        assert dynamicImportKey in InitialTexts(manifest[entryKey].dynamicImports);
        collector.Visit(dynamicImportKey, universe);
        AllReachedFromRoots(manifest, dynamicImportKey, roots, collector.visited, before);
        ClosedTogether(manifest, before, before, collector.visited - before, collector.visited);
        assert collector.visited == before + (collector.visited - before);
      }
    }
    assert dynamicImports[..|dynamicImports|] == dynamicImports;
    js, css := collector.js, collector.css;
    VisitedIsReachable(manifest, roots, collector.visited);
    FilesOfReachable(manifest, roots, collector.visited, js, css);
  }
}
