/** The JavaScript text the loader returns in place of the Go module: a
    `require` of the wasm_exec runtime shim, an import of the gobridge entry
    point, and the proxy that fetches the emitted artifact. Only the text is
    modelled, not what it does when a browser runs it. */
module Bridge {
  import opened Wrappers
  import opened NodePath
  import opened Derivations

  /** The template of `proxyBuilder`, around the call that fetches the file. */
  const PROXY_OPENING := "\nexport default gobridge("
  const PROXY_CLOSING := ".then(response => response.arrayBuffer()));\n"

  /** `fetch('<filename>')`. */
  function FetchCall(filename: string): string
  {
    "fetch('" + filename + "')"
  }

  /** `proxyBuilder(filename)`: the default export, a gobridge over the fetched
      artifact. The file name can be read back out of it. */
  function ProxyBuilder(filename: string): (text: string)
    ensures ProxyFilename(text) == Some(filename)
  {
    var prefix := PROXY_OPENING + "fetch('";
    var suffix := "')" + PROXY_CLOSING;
    var text := PROXY_OPENING + FetchCall(filename) + PROXY_CLOSING;
    assert text == prefix + filename + suffix;
    assert text[..|prefix|] == prefix;
    assert text[|text| - |suffix|..] == suffix;
    assert text[|prefix|..|text| - |suffix|] == filename;
    text
  }

  /** Reads the file name back out of a proxy text, or None when the text is
      not one. */
  function ProxyFilename(text: string): Option<string>
  {
    var prefix := PROXY_OPENING + "fetch('";
    var suffix := "')" + PROXY_CLOSING;
    if |prefix| + |suffix| <= |text| && text[..|prefix|] == prefix && text[|text| - |suffix|..] == suffix
    then Some(text[|prefix|..|text| - |suffix|])
    else None
  }

  /** The proxy text determines the file name, and every text that names a
      file is the proxy for it. */
  lemma ProxyRoundTrip(filename: string, text: string)
    ensures ProxyFilename(ProxyBuilder(filename)) == Some(filename)
    ensures ProxyFilename(text) == Some(filename) ==> ProxyBuilder(filename) == text
  {
    var prefix := PROXY_OPENING + "fetch('";
    var suffix := "')" + PROXY_CLOSING;
    if ProxyFilename(text) == Some(filename) {
      assert text == text[..|prefix|] + text[|prefix|..|text| - |suffix|] + text[|text| - |suffix|..];
    }
  }

  /** `join(__dirname, "..", "lib", "wasm_exec.js")`. */
  function WasmExecPath(dirname: string): string
  {
    Join([dirname, "..", "lib", "wasm_exec.js"])
  }

  /** `join(__dirname, "..", "dist", "gobridge.js")`. */
  function GobridgePath(dirname: string): string
  {
    Join([dirname, "..", "dist", "gobridge.js"])
  }

  /** The first five pieces of the joined array: everything before the proxy. */
  function Header(dirname: string): string
  {
    "require('!" + WasmExecPath(dirname) + "');" + "import gobridge from '" + GobridgePath(dirname) + "';"
  }

  /** The text handed to the callback on success: the array of pieces joined
      with "". The file name it fetches can be read back out of it. */
  function GeneratedModule(dirname: string, filename: string): (text: string)
    ensures FetchedFilename(dirname, text) == Some(filename)
  {
    var header := Header(dirname);
    var text := header + ProxyBuilder(filename);
    assert text[..|header|] == header;
    assert text[|header|..] == ProxyBuilder(filename);
    text
  }

  /** The file name a generated module fetches, read back from its text. */
  function FetchedFilename(dirname: string, text: string): Option<string>
  {
    var header := Header(dirname);
    if |header| <= |text| && text[..|header|] == header then ProxyFilename(text[|header|..]) else None
  }

  /** A generated module names the artifact it was generated for, and no other:
      two modules from the same installation differ exactly when their file
      names do. */
  lemma GeneratedModuleNamesArtifact(dirname: string, filename: string, other: string)
    ensures FetchedFilename(dirname, GeneratedModule(dirname, filename)) == Some(filename)
    ensures GeneratedModule(dirname, filename) == GeneratedModule(dirname, other) ==> filename == other
  {
    var text := GeneratedModule(dirname, filename);
    if text == GeneratedModule(dirname, other) {
      assert Some(filename) == FetchedFilename(dirname, text) == Some(other);
    }
  }

  /** The generated module contains `fetch('<filename>')`, right after the
      header and the opening of the default export. */
  lemma GeneratedModuleFetches(dirname: string, filename: string)
    ensures var text := GeneratedModule(dirname, filename);
            var at := |Header(dirname)| + |PROXY_OPENING|;
            var call := "fetch('" + filename + "')";
            at + |call| <= |text| && text[at..at + |call|] == call
  {
    var text := GeneratedModule(dirname, filename);
    var at := |Header(dirname)| + |PROXY_OPENING|;
    var call := FetchCall(filename);
    assert text == (Header(dirname) + PROXY_OPENING) + call + PROXY_CLOSING;
    assert text[at..at + |call|] == call;
  }

  /** With the loader installed in a canonical directory, the runtime shim is
      taken from the `lib` sibling of that directory. */
  lemma WasmExecBesideInstall(dirname: string)
    requires Canonical(dirname)
    ensures WasmExecPath(dirname) == ResourceDirectory(dirname) + "/lib/wasm_exec.js"
  {
    ShimNames(ResourceDirectory(dirname));
    SiblingPath(dirname, "lib", "wasm_exec.js");
  }

  /** ... and the bridge from its `dist` sibling. */
  lemma GobridgeBesideInstall(dirname: string)
    requires Canonical(dirname)
    ensures GobridgePath(dirname) == ResourceDirectory(dirname) + "/dist/gobridge.js"
  {
    BridgeNames(ResourceDirectory(dirname));
    SiblingPath(dirname, "dist", "gobridge.js");
  }

  /** The literal names of the runtime shim's path are plain segments. Kept
      apart from the lemmas that use them so that their proofs stay small. */
  lemma ShimNames(parent: string)
    ensures Plain("lib") && '/' !in "lib" && Plain("wasm_exec.js") && '/' !in "wasm_exec.js"
    ensures parent + "/" + "lib" + "/" + "wasm_exec.js" == parent + "/lib/wasm_exec.js"
  {
  }

  /** The same for the bridge's path. */
  lemma BridgeNames(parent: string)
    ensures Plain("dist") && '/' !in "dist" && Plain("gobridge.js") && '/' !in "gobridge.js"
    ensures parent + "/" + "dist" + "/" + "gobridge.js" == parent + "/dist/gobridge.js"
  {
  }

  /** `join(dir, "..", a, b)` for a canonical `dir` is `a/b` inside the parent
      of `dir`, computed as the loader computes a resource's directory. */
  lemma SiblingPath(dirname: string, a: string, b: string)
    requires Canonical(dirname)
    requires Plain(a) && '/' !in a && Plain(b) && '/' !in b
    ensures Join([dirname, "..", a, b]) == ResourceDirectory(dirname) + "/" + a + "/" + b
  {
    JoinSibling(dirname, a, b);
    SiblingJoined(dirname, a, b);
  }

  lemma SiblingJoined(dirname: string, a: string, b: string)
    requires Canonical(dirname)
    ensures "/" + JoinWith(ParentOf(Segments(dirname)) + [a, b]) == ResourceDirectory(dirname) + "/" + a + "/" + b
  {
    var parent := ParentOf(Segments(dirname));
    JoinSegments(parent, [a, b]);
    JoinWithCons(a, [b]);
    ParentDirectory(dirname);
    if parent != [] {
      SlashAssoc(JoinWith(parent), a, b);
    } else {
      SlashAssoc("", a, b);
    }
  }

  /** Regrouping of "/"-separated pieces, kept apart for the same reason. */
  lemma SlashAssoc(x: string, a: string, b: string)
    ensures "/" + (x + "/" + (a + "/" + b)) == ("/" + x) + "/" + a + "/" + b
    ensures "/" + ("" + (a + "/" + b)) == "" + "/" + a + "/" + b
  {
  }

  /** The directory of a canonical path is "/" followed by its parent's
      segments, or "" when the parent is the root. */
  lemma ParentDirectory(dirname: string)
    requires Canonical(dirname)
    ensures var parent := ParentOf(Segments(dirname));
            ResourceDirectory(dirname) == if parent == [] then "" else "/" + JoinWith(parent)
  {
    CanonicalSegments(dirname);
    var segs := Segments(dirname);
    if |segs| == 0 {
      assert dirname == "/";
      assert dirname == "" + "/" + "";
      ResourceDirectoryOf("", "");
    } else if |segs| == 1 {
      assert dirname == "" + "/" + segs[0];
      ResourceDirectoryOf("", segs[0]);
    } else {
      var parent := segs[..|segs| - 1];
      var last := segs[|segs| - 1];
      assert segs == parent + [last];
      JoinWithAppend(parent, [last]);
      assert dirname == ("/" + JoinWith(parent)) + "/" + last;
      ResourceDirectoryOf("/" + JoinWith(parent), last);
    }
  }
}
