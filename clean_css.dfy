/**
  The webpack plugin of config/clean-css.js. On `emit` it walks the file list of every
  chunk and, for each name ending in `.css`, replaces that entry of the compilation's
  asset table with an asset whose `source()` is the minifier's output for the old
  `source()` and whose `size()` is the length of that output; then it calls back.

  The minifier (`new CleanCSS({...}).minify(source).styles` with the plugin's fixed
  options) is a parameter of type `string -> string`.
 */
module CleanCss {
  import opened Wrappers
  import opened JsStrings

  /** An entry of `compilation.assets`: what its `source()` and `size()` return. */
  datatype Asset = Asset(source: string, size: nat)

  /** A webpack chunk, reduced to the names of the files it produced. */
  datatype Chunk = Chunk(files: seq<string>)

  /** The test `/\.css$/`. */
  predicate IsCss(name: string)
  {
    EndsWith(name, ".css")
  }

  /** The object the handler stores: both functions read the same minifier output. */
  function MinifiedAsset(styles: string): Asset
  {
    Asset(styles, |styles|)
  }

  /**
    The asset table after a run over some file names, and the name whose lookup threw
    if the run stopped early (`compilation.assets[filename]` is `undefined` for a `.css`
    name missing from the table, so calling `.source()` on it raises a TypeError).
   */
  datatype Rewrite = Rewrite(assets: map<string, Asset>, missing: Option<string>)

  /**
    The body of the inner `forEach`, for one file name: it throws exactly for a `.css`
    name missing from the table, changes at most the entry of that name, and a rewritten
    entry holds the minifier's output for the old content, with that output's length.
   */
  function RewriteFile(assets: map<string, Asset>, name: string, minify: string -> string): (r: Rewrite)
    ensures r.missing.Some? <==> IsCss(name) && name !in assets
    ensures r.missing.Some? ==> r.missing.value == name
    ensures r.assets.Keys == assets.Keys
    ensures forall n :: n in assets && n != name ==> r.assets[n] == assets[n]
    ensures name in assets ==>
      r.assets[name] == if IsCss(name) then MinifiedAsset(minify(assets[name].source)) else assets[name]
  {
    if !IsCss(name) then Rewrite(assets, None)
    else if name !in assets then Rewrite(assets, Some(name))
    else Rewrite(assets[name := MinifiedAsset(minify(assets[name].source))], None)
  }

  /**
    The handler's effect over a sequence of file names, taken in order; the lemmas
    below state what it promises.
   */
  function RewriteFiles(assets: map<string, Asset>, files: seq<string>, minify: string -> string): Rewrite
    decreases |files|
  {
    if |files| == 0 then Rewrite(assets, None)
    else
      var before := RewriteFiles(assets, files[..|files| - 1], minify);
      if before.missing.Some? then before
      else RewriteFile(before.assets, files[|files| - 1], minify)
  }

  /** The file names the two nested `forEach` loops visit, chunk after chunk. */
  function AllFiles(chunks: seq<Chunk>): seq<string>
  {
    if |chunks| == 0 then []
    else AllFiles(chunks[..|chunks| - 1]) + chunks[|chunks| - 1].files
  }

  /** `f` applied `k` times to `s`. */
  function Iterate(f: string -> string, k: nat, s: string): string
  {
    if k == 0 then s else f(Iterate(f, k - 1, s))
  }

  // ---------------------------------------------------------------------------
  // Properties of the rewrite
  // ---------------------------------------------------------------------------

  lemma {:induction false} AllFilesAppend(a: seq<Chunk>, b: seq<Chunk>)
    ensures AllFiles(a + b) == AllFiles(a) + AllFiles(b)
    decreases |b|
  {
    if |b| > 0 {
      var n := |b| - 1;
      assert (a + b)[..|a + b| - 1] == a + b[..n];
      assert (a + b)[|a + b| - 1] == b[n];
      AllFilesAppend(a, b[..n]);
    } else {
      assert a + b == a;
    }
  }

  /** Once a lookup has thrown, later file names change nothing. */
  lemma {:induction false} RewriteStopsAtThrow(assets: map<string, Asset>, xs: seq<string>, ys: seq<string>, minify: string -> string)
    requires RewriteFiles(assets, xs, minify).missing.Some?
    ensures RewriteFiles(assets, xs + ys, minify) == RewriteFiles(assets, xs, minify)
    decreases |ys|
  {
    if |ys| > 0 {
      var n := |ys| - 1;
      assert (xs + ys)[..|xs + ys| - 1] == xs + ys[..n];
      RewriteStopsAtThrow(assets, xs, ys[..n], minify);
    } else {
      assert xs + ys == xs;
    }
  }

  /** The handler neither adds nor removes assets. */
  lemma {:induction false} RewriteKeepsNames(assets: map<string, Asset>, files: seq<string>, minify: string -> string)
    ensures RewriteFiles(assets, files, minify).assets.Keys == assets.Keys
    decreases |files|
  {
    if |files| > 0 {
      RewriteKeepsNames(assets, files[..|files| - 1], minify);
    }
  }

  /** An asset that is not a `.css` file, or that no chunk lists, keeps its content and size. */
  lemma {:induction false} RewriteKeepsOthers(assets: map<string, Asset>, files: seq<string>, minify: string -> string, name: string)
    requires name in assets
    requires !IsCss(name) || name !in files
    ensures name in RewriteFiles(assets, files, minify).assets
    ensures RewriteFiles(assets, files, minify).assets[name] == assets[name]
    decreases |files|
  {
    RewriteKeepsNames(assets, files, minify);
    if |files| > 0 {
      var init := files[..|files| - 1];
      assert name !in files ==> name !in init;
      RewriteKeepsOthers(assets, init, minify, name);
    }
  }

  /** The run reaches the callback exactly when every listed `.css` name is in the table. */
  lemma {:induction false} RewriteCompletes(assets: map<string, Asset>, files: seq<string>, minify: string -> string)
    ensures RewriteFiles(assets, files, minify).missing.None?
      <==> forall i :: 0 <= i < |files| && IsCss(files[i]) ==> files[i] in assets
    decreases |files|
  {
    if |files| > 0 {
      var n := |files| - 1;
      var init := files[..n];
      RewriteCompletes(assets, init, minify);
      RewriteKeepsNames(assets, init, minify);
      assert forall i :: 0 <= i < n ==> files[i] == init[i];
    }
  }

  /** A throw names the first listed `.css` file that has no asset. */
  lemma {:induction false} RewriteThrowsAtFirstMissing(assets: map<string, Asset>, files: seq<string>, minify: string -> string)
    requires RewriteFiles(assets, files, minify).missing.Some?
    ensures var f := RewriteFiles(assets, files, minify).missing.value;
      exists k :: 0 <= k < |files| && files[k] == f && IsCss(f) && f !in assets &&
        forall j :: 0 <= j < k && IsCss(files[j]) ==> files[j] in assets
    decreases |files|
  {
    var n := |files| - 1;
    var init := files[..n];
    assert forall i :: 0 <= i < n ==> files[i] == init[i];
    if RewriteFiles(assets, init, minify).missing.Some? {
      RewriteThrowsAtFirstMissing(assets, init, minify);
    } else {
      RewriteCompletes(assets, init, minify);
      RewriteKeepsNames(assets, init, minify);
      assert files[n] == RewriteFiles(assets, files, minify).missing.value;
    }
  }

  /**
    After a complete run, a `.css` asset listed `k > 0` times holds the minifier applied
    `k` times to its original content (each pass minifies the previous pass's output),
    and its size is the length of that text.
   */
  lemma {:induction false} RewriteMinifiesPerOccurrence(assets: map<string, Asset>, files: seq<string>, minify: string -> string, name: string)
    requires name in assets && IsCss(name)
    requires RewriteFiles(assets, files, minify).missing.None?
    ensures name in RewriteFiles(assets, files, minify).assets
    ensures var k := multiset(files)[name];
      RewriteFiles(assets, files, minify).assets[name]
        == if k == 0 then assets[name] else MinifiedAsset(Iterate(minify, k, assets[name].source))
    decreases |files|
  {
    RewriteKeepsNames(assets, files, minify);
    if |files| > 0 {
      var n := |files| - 1;
      var init := files[..n];
      assert files == init + [files[n]];
      assert multiset(files) == multiset(init) + multiset{files[n]};
      RewriteMinifiesPerOccurrence(assets, init, minify, name);
      RewriteKeepsNames(assets, init, minify);
    }
  }

  /** Every listed `.css` asset reports as its size the length of its new content. */
  lemma RewrittenSizeIsLength(assets: map<string, Asset>, files: seq<string>, minify: string -> string, name: string)
    requires name in assets && IsCss(name) && name in files
    requires RewriteFiles(assets, files, minify).missing.None?
    ensures name in RewriteFiles(assets, files, minify).assets
    ensures var a := RewriteFiles(assets, files, minify).assets[name];
      a.size == |a.source| && a.source == minify(Iterate(minify, multiset(files)[name] - 1, assets[name].source))
  {
    RewriteMinifiesPerOccurrence(assets, files, minify, name);
  }

  /** The files of the first `i + 1` chunks are those of the first `i`, then chunk `i`'s. */
  lemma NextChunk(chunks: seq<Chunk>, i: nat)
    requires i < |chunks|
    ensures AllFiles(chunks[..i + 1]) == AllFiles(chunks[..i]) + chunks[i].files
  {
    assert chunks[..i + 1][..i] == chunks[..i];
  }

  /** The walk cut at file `j` of chunk `i`: what was visited, then what remains. */
  lemma AllFilesAt(chunks: seq<Chunk>, i: nat, j: nat)
    requires i < |chunks| && j <= |chunks[i].files|
    ensures AllFiles(chunks)
      == (AllFiles(chunks[..i]) + chunks[i].files[..j]) + (chunks[i].files[j..] + AllFiles(chunks[i + 1..]))
  {
    var files := chunks[i].files;
    var pre, post := chunks[..i], chunks[i + 1..];
    assert chunks == (pre + [chunks[i]]) + post;
    AllFilesAppend(pre + [chunks[i]], post);
    NextChunk(chunks, i);
    assert chunks[..i + 1] == pre + [chunks[i]];
    assert files == files[..j] + files[j..];
  }

  /** A throw at file `j` of chunk `i` fixes the outcome of the whole walk. */
  lemma ThrowEndsRun(assets: map<string, Asset>, chunks: seq<Chunk>, i: nat, j: nat, minify: string -> string)
    requires i < |chunks| && j <= |chunks[i].files|
    requires RewriteFiles(assets, AllFiles(chunks[..i]) + chunks[i].files[..j], minify).missing.Some?
    ensures RewriteFiles(assets, AllFiles(chunks), minify)
      == RewriteFiles(assets, AllFiles(chunks[..i]) + chunks[i].files[..j], minify)
  {
    AllFilesAt(chunks, i, j);
    RewriteStopsAtThrow(assets, AllFiles(chunks[..i]) + chunks[i].files[..j],
      chunks[i].files[j..] + AllFiles(chunks[i + 1..]), minify);
  }

  /** The first `j + 1` files of a chunk after `done`: one more name than the first `j`. */
  lemma ExtendByOne(done: seq<string>, files: seq<string>, j: nat)
    requires j < |files|
    ensures done + files[..j + 1] == (done + files[..j]) + [files[j]]
  {
    assert files[..j + 1] == files[..j] + [files[j]];
  }

  /** One more file name, not a `.css` one: the table stays as it is. */
  lemma RewriteNextOther(assets: map<string, Asset>, done: seq<string>, files: seq<string>, j: nat,
                         minify: string -> string, cur: map<string, Asset>)
    requires j < |files| && !IsCss(files[j])
    requires RewriteFiles(assets, done + files[..j], minify) == Rewrite(cur, None)
    ensures RewriteFiles(assets, done + files[..j + 1], minify) == Rewrite(cur, None)
  {
    ExtendByOne(done, files, j);
    var xs := done + files[..j];
    assert (xs + [files[j]])[..|xs|] == xs;
  }

  /** One more `.css` name that is in the table: its entry is minified. */
  lemma RewriteNextCss(assets: map<string, Asset>, done: seq<string>, files: seq<string>, j: nat,
                       minify: string -> string, cur: map<string, Asset>)
    requires j < |files| && IsCss(files[j]) && files[j] in cur
    requires RewriteFiles(assets, done + files[..j], minify) == Rewrite(cur, None)
    ensures RewriteFiles(assets, done + files[..j + 1], minify)
      == Rewrite(cur[files[j] := MinifiedAsset(minify(cur[files[j]].source))], None)
  {
    ExtendByOne(done, files, j);
    var xs := done + files[..j];
    assert (xs + [files[j]])[..|xs|] == xs;
  }

  /** One more `.css` name that is missing from the table: the run throws there. */
  lemma RewriteNextMissing(assets: map<string, Asset>, done: seq<string>, files: seq<string>, j: nat,
                           minify: string -> string, cur: map<string, Asset>)
    requires j < |files| && IsCss(files[j]) && files[j] !in cur
    requires RewriteFiles(assets, done + files[..j], minify) == Rewrite(cur, None)
    ensures RewriteFiles(assets, done + files[..j + 1], minify) == Rewrite(cur, Some(files[j]))
  {
    ExtendByOne(done, files, j);
    var xs := done + files[..j];
    assert (xs + [files[j]])[..|xs|] == xs;
  }

  // ---------------------------------------------------------------------------
  // The handler
  // ---------------------------------------------------------------------------

  /** The parts of webpack's compilation object the handler touches. */
  class Compilation {
    var assets: map<string, Asset>
    var chunks: seq<Chunk>

    constructor (assets: map<string, Asset>, chunks: seq<Chunk>)
      ensures this.assets == assets && this.chunks == chunks
    {
      this.assets := assets;
      this.chunks := chunks;
    }
  }

  /** The `callback` handed to the `emit` hook, counting its invocations. */
  class Callback {
    var calls: nat

    constructor ()
      ensures calls == 0
    {
      calls := 0;
    }

    method Invoke()
      modifies this
      ensures calls == old(calls) + 1
    {
      calls := calls + 1;
    }
  }

  /**
    The inner `forEach`, over the files of chunk `i`. It returns the name whose lookup
    threw, if one did, and then the table is the outcome of the whole walk.
   */
  method RewriteChunk(compilation: Compilation, chunks: seq<Chunk>, i: nat, minify: string -> string,
                      ghost start: map<string, Asset>)
    returns (thrown: Option<string>)
    requires i < |chunks|
    requires RewriteFiles(start, AllFiles(chunks[..i]), minify) == Rewrite(compilation.assets, None)
    modifies compilation`assets
    ensures thrown.None? ==>
      RewriteFiles(start, AllFiles(chunks[..i + 1]), minify) == Rewrite(compilation.assets, None)
    ensures thrown.Some? ==>
      RewriteFiles(start, AllFiles(chunks), minify) == Rewrite(compilation.assets, thrown)
  {
    var files := chunks[i].files;
    ghost var done := AllFiles(chunks[..i]);
    var j := 0;
    assert done + files[..0] == done;
    while j < |files|
      invariant 0 <= j <= |files|
      invariant RewriteFiles(start, done + files[..j], minify) == Rewrite(compilation.assets, None)
    {
      var filename := files[j];
      if IsCss(filename) {
        if filename !in compilation.assets {
          // `undefined.source()`: the TypeError ends the handler here
          RewriteNextMissing(start, done, files, j, minify, compilation.assets);
          ThrowEndsRun(start, chunks, i, j + 1, minify);
          return Some(filename);
        }
        RewriteNextCss(start, done, files, j, minify, compilation.assets);
        var source := compilation.assets[filename].source;
        var output := minify(source);
        compilation.assets := compilation.assets[filename := Asset(output, |output|)];
      } else {
        RewriteNextOther(start, done, files, j, minify, compilation.assets);
      }
      j := j + 1;
    }
    NextChunk(chunks, i);
    assert files[..|files|] == files;
    thrown := None;
  }

  /**
    The `emit` handler. It returns the name whose lookup threw, if one did; in that case
    the assets rewritten before the throw stay rewritten and `callback` is not called.
    Otherwise `callback` is called once, after the last file of the last chunk.
   */
  method EmitHandler(compilation: Compilation, minify: string -> string, callback: Callback)
    returns (thrown: Option<string>)
    modifies compilation`assets, callback
    ensures var r := RewriteFiles(old(compilation.assets), AllFiles(compilation.chunks), minify);
      compilation.assets == r.assets && thrown == r.missing
    ensures callback.calls == old(callback.calls) + (if thrown.None? then 1 else 0)
  {
    var chunks := compilation.chunks;
    ghost var start := compilation.assets;
    var i := 0;
    while i < |chunks|
      invariant 0 <= i <= |chunks|
      invariant chunks == compilation.chunks
      invariant RewriteFiles(start, AllFiles(chunks[..i]), minify) == Rewrite(compilation.assets, None)
      invariant callback.calls == old(callback.calls)
    {
      thrown := RewriteChunk(compilation, chunks, i, minify, start);
      if thrown.Some? {
        return;
      }
      i := i + 1;
    }
    assert chunks[..|chunks|] == chunks;
    callback.Invoke();
    thrown := None;
  }
}
