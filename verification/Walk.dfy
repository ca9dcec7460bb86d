/** recurseKustomizationFiles, DecryptSources and sopsDecryptFile of
    internal/decryptor/decryptor.go on a finite file system without symlinks. */
module KustomizationWalk {
  import opened Text
  import opened Paths

  datatype Format = Binary | Dotenv | Ini | Json | Yaml

  datatype Generator = Generator(fileSources: seq<string>, envSources: seq<string>)

  /** The part of a Kustomization file the walk looks at. */
  datatype Kustomization = Kustomization(resources: seq<string>, components: seq<string>,
                                         secretGenerator: seq<Generator>, patches: seq<string>)

  /** A reference to a source file, and the format it is taken to have. */
  datatype Ref = Ref(path: string, format: Format)

  /** Files and directories by their components below root. */
  type Files = map<Components, string>

  // ------------------------------------------------------------ references

  predicate HasSuffix(s: string, suffix: string) {
    |suffix| <= |s| && s[|s| - |suffix|..] == suffix
  }

  function FormatForPath(path: string): Format {
    if HasSuffix(path, ".dockerconfigjson") then Json
    else if HasSuffix(path, ".yaml") || HasSuffix(path, ".yml") then Yaml
    else if HasSuffix(path, ".json") then Json
    else if HasSuffix(path, ".env") then Dotenv
    else if HasSuffix(path, ".ini") then Ini
    else Binary
  }

  function Marker(f: Format): string {
    match f
    case Binary => "\"mac\": \"ENC["
    case Dotenv => "sops_mac=ENC["
    case Ini => "[sops]"
    case Json => "\"mac\": \"ENC["
    case Yaml => "mac: ENC["
  }

  predicate Contains(s: string, t: string) {
    exists i :: 0 <= i <= |s| && HasPrefix(s[i..], t)
  }

  /** The text occurs anywhere. */
  lemma ContainsMeaning(s: string, t: string)
    ensures Contains(s, t) <==> exists a, b :: s == a + t + b
  {
    if Contains(s, t) {
      var i :| 0 <= i <= |s| && HasPrefix(s[i..], t);
      assert s == s[..i] + t + s[i + |t|..];
    }
    if a, b :| s == a + t + b {
      assert s[|a|..] == t + b;
      assert HasPrefix(s[|a|..], t);
    }
  }

  /** The first position of c, or the length. */
  function IndexOf(s: string, c: char): (i: nat)
    ensures i <= |s| && (i < |s| ==> s[i] == c) && c !in s[..i]
  {
    if s == "" || s[0] == c then 0 else 1 + IndexOf(s[1..], c)
  }

  /** A file source is a path, or a key and a path; the key decides the format. */
  function FileRef(source: string): Ref {
    var i := IndexOf(source, '=');
    Ref(if i < |source| then source[i + 1..] else source, FormatForPath(source[..i]))
  }

  function EnvRef(source: string): Ref {
    var format := FormatForPath(source);
    Ref(source, if format == Binary then Dotenv else format)
  }

  function FileRefs(sources: seq<string>): (refs: seq<Ref>)
    ensures |refs| == |sources| && forall i :: 0 <= i < |sources| ==> refs[i] == FileRef(sources[i])
  {
    if sources == [] then [] else [FileRef(sources[0])] + FileRefs(sources[1..])
  }

  function EnvRefs(sources: seq<string>): (refs: seq<Ref>)
    ensures |refs| == |sources| && forall i :: 0 <= i < |sources| ==> refs[i] == EnvRef(sources[i])
  {
    if sources == [] then [] else [EnvRef(sources[0])] + EnvRefs(sources[1..])
  }

  function GeneratorRefs(gens: seq<Generator>): seq<Ref> {
    if gens == [] then []
    else FileRefs(gens[0].fileSources) + EnvRefs(gens[0].envSources) + GeneratorRefs(gens[1..])
  }

  function PatchRefs(patches: seq<string>, remote: string -> bool): seq<Ref> {
    if patches == [] then []
    else (if patches[0] == "" || remote(patches[0]) then [] else [Ref(patches[0], FormatForPath(patches[0]))])
         + PatchRefs(patches[1..], remote)
  }

  /** Every source file a Kustomization file refers to, in the order it is visited. */
  function References(kus: Kustomization, remote: string -> bool): seq<Ref> {
    GeneratorRefs(kus.secretGenerator) + PatchRefs(kus.patches, remote)
  }

  /** What a file source says: the whole of it is the path and decides the format, or what is
      before the first '=' decides the format and what is after it is the path. */
  ghost predicate SaysFile(source: string, ref: Ref) {
    if '=' !in source then ref == Ref(source, FormatForPath(source))
    else exists key :: '=' !in key && source == key + "=" + ref.path && ref.format == FormatForPath(key)
  }

  /** What an environment source says: formats other than binary are kept. */
  ghost predicate SaysEnv(source: string, ref: Ref) {
    && ref.path == source
    && (FormatForPath(source) == Binary ==> ref.format == Dotenv)
    && (FormatForPath(source) != Binary ==> ref.format == FormatForPath(source))
  }

  /** What the fields of a Kustomization file refer to. */
  ghost predicate Refers(kus: Kustomization, remote: string -> bool, ref: Ref) {
    || (exists g, f :: g in kus.secretGenerator && f in g.fileSources && SaysFile(f, ref))
    || (exists g, e :: g in kus.secretGenerator && e in g.envSources && SaysEnv(e, ref))
    || (ref.path in kus.patches && ref.path != "" && !remote(ref.path) && ref.format == FormatForPath(ref.path))
  }

  lemma FileRefSays(source: string, ref: Ref)
    ensures FileRef(source) == ref <==> SaysFile(source, ref)
  {
    var i := IndexOf(source, '=');
    if i < |source| {
      assert source[i] in source;
      assert source == source[..i] + "=" + source[i + 1..];
      if SaysFile(source, ref) {
        var key :| '=' !in key && source == key + "=" + ref.path && ref.format == FormatForPath(key);
        assert source[|key|] == '=';
        assert key == source[..i] && ref.path == source[i + 1..];
      }
    } else {
      assert source[..i] == source;
    }
  }

  lemma {:induction false} GeneratorRefsFields(gens: seq<Generator>, ref: Ref)
    ensures ref in GeneratorRefs(gens) <==>
            || (exists g, f :: g in gens && f in g.fileSources && FileRef(f) == ref)
            || (exists g, e :: g in gens && e in g.envSources && EnvRef(e) == ref)
  {
    hide FileRef, EnvRef;
    if gens != [] {
      var g, rest := gens[0], gens[1..];
      assert gens == [g] + rest;
      GeneratorRefsFields(rest, ref);
      assert ref in FileRefs(g.fileSources) <==> exists f :: f in g.fileSources && FileRef(f) == ref by {
        if f :| f in g.fileSources && FileRef(f) == ref {
          var i :| 0 <= i < |g.fileSources| && g.fileSources[i] == f;
          assert FileRefs(g.fileSources)[i] == ref;
        }
      }
      assert ref in EnvRefs(g.envSources) <==> exists e :: e in g.envSources && EnvRef(e) == ref by {
        if e :| e in g.envSources && EnvRef(e) == ref {
          var i :| 0 <= i < |g.envSources| && g.envSources[i] == e;
          assert EnvRefs(g.envSources)[i] == ref;
        }
      }
    }
  }

  lemma {:induction false} PatchRefsFields(patches: seq<string>, remote: string -> bool, ref: Ref)
    ensures ref in PatchRefs(patches, remote) <==>
            ref.path in patches && ref.path != "" && !remote(ref.path) && ref.format == FormatForPath(ref.path)
  {
    hide FormatForPath;
    if patches != [] {
      PatchRefsFields(patches[1..], remote, ref);
      assert patches == [patches[0]] + patches[1..];
    }
  }

  /** The references are exactly what the fields say, */
  lemma ReferencesAreFields(kus: Kustomization, remote: string -> bool, ref: Ref)
    ensures ref in References(kus, remote) <==> Refers(kus, remote, ref)
  {
    hide FileRef, FormatForPath, SaysFile;
    GeneratorRefsFields(kus.secretGenerator, ref);
    PatchRefsFields(kus.patches, remote, ref);
    forall f
      ensures FileRef(f) == ref <==> SaysFile(f, ref)
    {
      FileRefSays(f, ref);
    }
    assert forall e :: EnvRef(e) == ref <==> SaysEnv(e, ref);
  }

  lemma {:induction false} GeneratorRefsConcat(a: seq<Generator>, b: seq<Generator>)
    ensures GeneratorRefs(a + b) == GeneratorRefs(a) + GeneratorRefs(b)
  {
    if a == [] {
      assert a + b == b;
    } else {
      assert (a + b)[1..] == a[1..] + b;
      GeneratorRefsConcat(a[1..], b);
    }
  }

  lemma {:induction false} PatchRefsConcat(a: seq<string>, b: seq<string>, remote: string -> bool)
    ensures PatchRefs(a + b, remote) == PatchRefs(a, remote) + PatchRefs(b, remote)
  {
    if a == [] {
      assert a + b == b;
    } else {
      assert (a + b)[1..] == a[1..] + b;
      PatchRefsConcat(a[1..], b, remote);
    }
  }

  lemma GeneratorRefsOne(g: Generator)
    ensures GeneratorRefs([g]) == FileRefs(g.fileSources) + EnvRefs(g.envSources)
  {
    hide FileRefs, EnvRefs;
    assert GeneratorRefs([g][1..]) == [];
  }

  /** in the order of the fields: generator by generator, file sources before environment
      sources, and all patches last. */
  lemma ReferencesInOrder(gens1: seq<Generator>, g: Generator, gens2: seq<Generator>, patches1: seq<string>,
                          patches2: seq<string>, kus: Kustomization, remote: string -> bool)
    requires kus.secretGenerator == gens1 + [g] + gens2 && kus.patches == patches1 + patches2
    ensures References(kus, remote)
            == GeneratorRefs(gens1) + (FileRefs(g.fileSources) + EnvRefs(g.envSources)) + GeneratorRefs(gens2)
               + (PatchRefs(patches1, remote) + PatchRefs(patches2, remote))
  {
    hide FileRefs, EnvRefs, GeneratorRefs, PatchRefs;
    GeneratorRefsConcat(gens1 + [g], gens2);
    GeneratorRefsConcat(gens1, [g]);
    GeneratorRefsOne(g);
    PatchRefsConcat(patches1, patches2, remote);
  }

  /** The marker that is looked for, by the suffix that decides the format. */
  lemma MarkerForPath(path: string)
    ensures HasSuffix(path, ".yaml") || HasSuffix(path, ".yml") ==> Marker(FormatForPath(path)) == "mac: ENC["
    ensures HasSuffix(path, ".json") || HasSuffix(path, ".dockerconfigjson") ==>
              Marker(FormatForPath(path)) == "\"mac\": \"ENC["
    ensures HasSuffix(path, ".env") ==> Marker(FormatForPath(path)) == "sops_mac=ENC["
    ensures HasSuffix(path, ".ini") ==> Marker(FormatForPath(path)) == "[sops]"
    ensures !HasSuffix(path, ".yaml") && !HasSuffix(path, ".yml") && !HasSuffix(path, ".env") && !HasSuffix(path, ".ini") ==>
              Marker(FormatForPath(path)) == "\"mac\": \"ENC["
    ensures FormatForPath(path) == Binary <==>
            && !HasSuffix(path, ".yaml") && !HasSuffix(path, ".yml") && !HasSuffix(path, ".json")
            && !HasSuffix(path, ".dockerconfigjson") && !HasSuffix(path, ".env") && !HasSuffix(path, ".ini")
  {
    hide HasSuffix;
    SuffixLast(path, ".yaml");
    SuffixLast(path, ".yml");
    SuffixLast(path, ".json");
    SuffixLast(path, ".dockerconfigjson");
    SuffixLast(path, ".env");
    SuffixLast(path, ".ini");
  }

  lemma SuffixLast(path: string, suffix: string)
    requires suffix != ""
    ensures HasSuffix(path, suffix) ==> path != "" && path[|path| - 1] == suffix[|suffix| - 1]
  {
    if HasSuffix(path, suffix) {
      assert path[|path| - |suffix|..][|suffix| - 1] == suffix[|suffix| - 1];
    }
  }

  /** A reference is joined to the path of the Kustomization, unless it is absolute. */
  function From(path: string, ref: string): string {
    if IsAbs(ref) then ref else FilepathJoin(path, ref)
  }

  // ------------------------------------------------------------ the file system

  /** The part of the environment that does not change during a walk. */
  datatype Env = Env(root: string, dirs: set<Components>, maxFileSize: nat,
                     parse: string -> Option<Kustomization>,
                     decrypt: (string, Format) -> Option<string>,
                     remote: string -> bool)

  const FileNames := ["kustomization.yaml", "kustomization.yml", "Kustomization"]

  /** secureLoadKustomizationFile: exactly one recognized regular file, which parses. */
  function Load(env: Env, files: Files, dir: Components): Option<Kustomization> {
    var found := set i | 0 <= i < 3 && dir + [FileNames[i]] in files;
    if exists i :: 0 <= i < 3 && dir + [FileNames[i]] in env.dirs then None
    else if found == {0} then env.parse(files[dir + [FileNames[0]]])
    else if found == {1} then env.parse(files[dir + [FileNames[1]]])
    else if found == {2} then env.parse(files[dir + [FileNames[2]]])
    else None
  }

  const Recognized := {"kustomization.yaml", "kustomization.yml", "Kustomization"}

  /** name is a regular file, and the other recognized names do not exist. */
  ghost predicate OnlyFile(env: Env, files: Files, dir: Components, name: string) {
    && name in Recognized && dir + [name] in files
    && (forall other :: other in Recognized ==> dir + [other] !in env.dirs)
    && (forall other :: other in Recognized && other != name ==> dir + [other] !in files)
  }

  /** A directory loads exactly when one of the three names is a regular file that parses, and
      the others do not exist. */
  lemma LoadMeaning(env: Env, files: Files, dir: Components, kus: Kustomization)
    ensures Load(env, files, dir) == Some(kus) <==>
            exists name :: OnlyFile(env, files, dir, name) && env.parse(files[dir + [name]]) == Some(kus)
  {
    var found := set i | 0 <= i < 3 && dir + [FileNames[i]] in files;
    assert FileNames[0] == "kustomization.yaml" && FileNames[1] == "kustomization.yml" && FileNames[2] == "Kustomization";
    assert 0 in found <==> dir + [FileNames[0]] in files;
    assert 1 in found <==> dir + [FileNames[1]] in files;
    assert 2 in found <==> dir + [FileNames[2]] in files;
    assert found <= {0, 1, 2};
    if Load(env, files, dir) == Some(kus) {
      assert !exists i :: 0 <= i < 3 && dir + [FileNames[i]] in env.dirs;
      assert dir + [FileNames[0]] !in env.dirs && dir + [FileNames[1]] !in env.dirs && dir + [FileNames[2]] !in env.dirs;
      var name := if found == {0} then FileNames[0] else if found == {1} then FileNames[1] else FileNames[2];
      assert OnlyFile(env, files, dir, name);
    }
    if name :| OnlyFile(env, files, dir, name) && env.parse(files[dir + [name]]) == Some(kus) {
      assert forall i :: 0 <= i < 3 ==> FileNames[i] in Recognized;
      assert found == if name == FileNames[0] then {0} else if name == FileNames[1] then {1} else {2};
    }
  }

  /** What decrypting a file of this content in place leaves there. */
  function Plain(env: Env, content: string, format: Format): Option<string> {
    if Contains(content, Marker(format)) then env.decrypt(content, format) else Some(content)
  }

  datatype Target = Target(file: Components, format: Format)

  function Targets(env: Env, path: string, refs: seq<Ref>): (ts: seq<Target>)
    ensures |ts| == |refs|
  {
    seq(|refs|, i requires 0 <= i < |refs| => Target(Landing(env.root, From(path, refs[i].path)), refs[i].format))
  }

  // ------------------------------------------------------------ the record of a walk

  /** A visited Kustomization file and the path it was reached by. */
  datatype Visit = Visit(path: string, kus: Kustomization)

  ghost function DirOf(env: Env, v: Visit): Components {
    Landing(env.root, v.path)
  }

  ghost function Children(kus: Kustomization): (cs: seq<string>)
    ensures forall c :: c in cs <==> c in kus.resources || c in kus.components
  {
    kus.resources + kus.components
  }

  /** All references of all visits, in order. */
  ghost function Stream(env: Env, visits: seq<Visit>): seq<Target> {
    if visits == [] then []
    else
      var n := |visits| - 1;
      Stream(env, visits[..n]) + Targets(env, visits[n].path, References(visits[n].kus, env.remote))
  }

  /** The first reference to each file. */
  ghost function Firsts(ts: seq<Target>): seq<Target> {
    if ts == [] then []
    else
      var n := |ts| - 1;
      Firsts(ts[..n]) + if ts[n].file in FilesOf(ts[..n]) then [] else [ts[n]]
  }

  ghost function FilesOf(ts: seq<Target>): set<Components> {
    set t | t in ts :: t.file
  }

  /** The files after decrypting the targets in order. */
  ghost function Decrypted(env: Env, files: Files, ts: seq<Target>): Files {
    if ts == [] then files
    else
      var n := |ts| - 1;
      var before := Decrypted(env, files, ts[..n]);
      if ts[n].file in before && Plain(env, before[ts[n].file], ts[n].format).Some?
      then before[ts[n].file := Plain(env, before[ts[n].file], ts[n].format).value]
      else before
  }

  /** path is where the walk started, or a child of a visit. */
  ghost predicate CameFrom(start: string, visits: seq<Visit>, path: string) {
    path == start
    || exists j, c :: 0 <= j < |visits| && c in Children(visits[j].kus) && path == From(visits[j].path, c)
  }

  /** What is true of the record at any moment of a walk. */
  ghost predicate Recorded(env: Env, start: string, files0: Files, visited: set<Components>, visits: seq<Visit>) {
    && (forall i :: 0 <= i < |visits| ==> CameFrom(start, visits[..i], visits[i].path))
    && (forall i :: 0 <= i < |visits| ==> DirOf(env, visits[i]) in env.dirs && DirOf(env, visits[i]) in visited)
    && (forall i, j :: 0 <= i < j < |visits| ==> DirOf(env, visits[i]) != DirOf(env, visits[j]))
    && (forall i :: 0 <= i < |visits| ==>
          Load(env, FilesAfter(env, files0, visits[..i]), DirOf(env, visits[i])) == Some(visits[i].kus))
  }

  /** The files once the sources of these visits are decrypted. */
  ghost function FilesAfter(env: Env, files0: Files, visits: seq<Visit>): Files {
    Decrypted(env, files0, Firsts(Stream(env, visits)))
  }

  /** Every target is a regular file, and whatever marks it as encrypted can be decrypted. */
  ghost predicate Decryptable(env: Env, files0: Files, ts: seq<Target>) {
    forall t :: t in ts ==> t.file in files0 && Plain(env, files0[t.file], t.format).Some?
  }

  /** Everything marked since n visits ago leads back to path or to a visit since then, each
      marked directory was visited, and the children of those visits are all marked. */
  ghost predicate Explored(env: Env, path: string, before: set<Components>, n: nat,
                           visited: set<Components>, visits: seq<Visit>)
    requires n <= |visits|
  {
    && before <= visited && Landing(env.root, path) in visited
    && (forall l :: l in visited && l !in before ==>
          l == Landing(env.root, path) || Child(env, visits, n, l))
    && (forall l :: l in visited && l !in before && l in env.dirs ==> VisitedSince(env, visits, n, l))
    && (forall i, c :: n <= i < |visits| && c in Children(visits[i].kus) ==>
          Landing(env.root, From(visits[i].path, c)) in visited)
  }

  ghost predicate Child(env: Env, visits: seq<Visit>, n: nat, l: Components) {
    exists i, c :: n <= i < |visits| && c in Children(visits[i].kus) && l == Landing(env.root, From(visits[i].path, c))
  }

  ghost predicate VisitedSince(env: Env, visits: seq<Visit>, n: nat, l: Components) {
    exists i :: n <= i < |visits| && DirOf(env, visits[i]) == l
  }

  /** A source file that stops the walk: missing, not a regular file, too large, or marked as
      encrypted and impossible to decrypt. */
  predicate Refused(env: Env, files: Files, t: Target) {
    || t.file !in files || t.file in env.dirs
    || (env.maxFileSize > 0 && |files[t.file]| > env.maxFileSize)
    || (Contains(files[t.file], Marker(t.format)) && env.decrypt(files[t.file], t.format).None?)
  }

  /** There is no such file or directory because something above it is a file. */
  predicate ThroughFile(files: Files, path: Components) {
    path !in files && exists i :: 0 <= i < |path| && path[..i] in files
  }

  /** A path the walk came to after these visits, and why it could not go on there: a file where
      a directory is needed, no loadable Kustomization file, or a source that is refused or whose
      write was lost. */
  ghost predicate Blamed(env: Env, start: string, files0: Files, visits: seq<Visit>, lost: set<Components>, path: string) {
    var here := Landing(env.root, path);
    && CameFrom(start, visits, path)
    && if here !in env.dirs then
         ThroughFile(files0, here)
       else
         var loaded := Load(env, FilesAfter(env, files0, visits), here);
         loaded.None? || exists t :: t in Targets(env, path, References(loaded.value, env.remote))
                                     && (Refused(env, files0, t) || t.file in lost)
  }

  // ------------------------------------------------------------ the walk

  datatype Walked = WalkOk | WalkIgnore | WalkError

  class Walker {
    const env: Env
    ghost const start: string
    ghost const files0: Files
    var files: Files
    var visited: set<Components>
    var decrypted: set<Components>
    ghost var visits: seq<Visit>
    ghost var lost: set<Components>   // files whose write failed

    constructor (env: Env, files: Files, ghost start: string)
      ensures this.env == env && this.start == start && this.files == files && files0 == files
      ensures visited == {} && decrypted == {} && visits == [] && lost == {}
    {
      this.env, this.files, this.start, this.files0 := env, files, start, files;
      visited, decrypted, visits, lost := {}, {}, [], {};
    }

    ghost predicate Valid()
      reads this
    {
      && Recorded(env, start, files0, visited, visits)
      && Processed(Stream(env, visits))
    }

    /** The files are those of the start, with the first reference to each file decrypted. */
    ghost predicate Processed(stream: seq<Target>)
      reads this`files, this`decrypted
    {
      && files == Decrypted(env, files0, Firsts(stream))
      && decrypted == FilesOf(Firsts(stream))
      && Decryptable(env, files0, Firsts(stream))
    }

    /** os.WriteFile, which may fail half way. */
    method WriteFile(file: Components, data: string) returns (ok: bool)
      modifies this`files, this`lost
      ensures ok ==> files == old(files)[file := data] && lost == old(lost)
      ensures !ok ==> lost == old(lost) + {file}
    {
      ok := *;
      if ok {
        files := files[file := data];
      } else {
        var partial: string := *;
        files := files[file := partial];
        lost := lost + {file};
      }
    }

    /** sopsDecryptFile: Lstat, size, marker, decryption, write.  A file without the marker is not
        written, and a file is refused only for a reason. */
    method SopsDecryptFile(file: Components, format: Format) returns (ok: bool)
      modifies this`files, this`lost
      ensures ok ==> file in old(files) && file !in env.dirs
      ensures ok ==> Plain(env, old(files)[file], format).Some?
      ensures ok ==> files == old(files)[file := Plain(env, old(files)[file], format).value]
      ensures ok ==> env.maxFileSize == 0 || |old(files)[file]| <= env.maxFileSize
      ensures ok ==> !Refused(env, old(files), Target(file, format)) && lost == old(lost)
      ensures !ok ==> Refused(env, old(files), Target(file, format)) || file in lost
    {
      if file !in files || file in env.dirs {
        return false;
      }
      var data := files[file];
      if env.maxFileSize > 0 && |data| > env.maxFileSize {
        return false;
      }
      if !Contains(data, Marker(format)) {
        assert files == files[file := data];
        return true;
      }
      var out := env.decrypt(data, format);
      if out.None? {
        return false;
      }
      ok := WriteFile(file, out.value);
    }

    ghost predicate Stops(t: Target)
      reads this`lost
    {
      Refused(env, files0, t) || t.file in lost
    }

    /** visitRef: a file is decrypted the first time it is referred to, and never again. */
    method VisitRef(path: string, ref: Ref, ghost before: seq<Target>) returns (ok: bool)
      requires Processed(before)
      modifies this`files, this`decrypted, this`lost
      ensures ok ==> Processed(before + Targets(env, path, [ref]))
      ensures !ok ==> Stops(Targets(env, path, [ref])[0])
    {
      var file := Landing(env.root, From(path, ref.path));
      ghost var t := Target(file, ref.format);
      assert Targets(env, path, [ref]) == [t];
      FirstsStep(before, t);
      if file in decrypted {
        return true;
      }
      DecryptedFiles(env, files0, Firsts(before));
      ok := SopsDecryptFile(file, ref.format);
      if !ok {
        return;
      }
      decrypted := decrypted + {file};
      assert (Firsts(before) + [t])[..|Firsts(before)|] == Firsts(before);
      FilesOfAppend(Firsts(before), t);
    }

    /** decryptKustomizationSources on one Kustomization file. */
    method VisitSources(path: string, kus: Kustomization) returns (ok: bool)
      requires Valid()
      modifies this`files, this`decrypted, this`lost
      ensures ok ==> Processed(Stream(env, visits) + Targets(env, path, References(kus, env.remote)))
      ensures !ok ==> exists t :: t in Targets(env, path, References(kus, env.remote)) && Stops(t)
    {
      hide Landing, From, References, Stream, Decrypted, Firsts, FilesOf, Recorded, Processed, Stops;
      var refs := References(kus, env.remote);
      ghost var stream := Stream(env, visits);
      assert stream + Targets(env, path, refs[..0]) == stream;
      for i := 0 to |refs|
        invariant Processed(stream + Targets(env, path, refs[..i]))
      {
        assert stream + Targets(env, path, refs[..i + 1])
            == (stream + Targets(env, path, refs[..i])) + Targets(env, path, [refs[i]]);
        ok := VisitRef(path, refs[i], stream + Targets(env, path, refs[..i]));
        if !ok {
          assert Targets(env, path, [refs[i]])[0] == Targets(env, path, refs)[i];
          return;
        }
      }
      assert refs[..|refs|] == refs;
      return true;
    }

    /** recurseKustomizationFiles.  The measure is the set of directories not yet marked. */
    method Recurse(path: string) returns (r: Walked)
      requires Valid() && CameFrom(start, visits, path)
      modifies this
      decreases env.dirs - visited, 0
      ensures old(visits) <= visits && old(visited) <= visited
      ensures r != WalkError ==> Valid()
      ensures r != WalkError ==> Explored(env, path, old(visited), |old(visits)|, visited, visits)
      ensures r == WalkIgnore ==> visits == old(visits) && files == old(files)
      ensures r == WalkIgnore <==> Landing(env.root, path) !in old(visited) && Landing(env.root, path) !in env.dirs
                                   && !ThroughFile(files0, Landing(env.root, path))
      ensures Landing(env.root, path) in old(visited) ==> r == WalkOk && visits == old(visits) && files == old(files)
      ensures r == WalkError ==>
                Recorded(env, start, files0, visited, visits) && exists p :: Blamed(env, start, files0, visits, lost, p)
    {
      hide Landing, From, References, Stream, Decrypted, Firsts, FilesOf, Load, Children, Decryptable, Refused, Targets;
      var here := Landing(env.root, path);
      if here in visited {
        return WalkOk;
      }
      visited := visited + {here};
      if here !in env.dirs {
        // Missing, or not a directory; a path through a file is an error of Lstat.
        var throughFile := ThroughFile(files, here);
        DecryptedFiles(env, files0, Firsts(Stream(env, visits)));
        assert throughFile ==> Blamed(env, start, files0, visits, lost, path);
        return if throughFile then WalkError else WalkIgnore;
      }
      var loaded := Load(env, files, here);
      if loaded.None? {
        assert Blamed(env, start, files0, visits, lost, path);
        return WalkError;
      }
      var kus := loaded.value;
      var ok := VisitSources(path, kus);
      if !ok {
        assert Blamed(env, start, files0, visits, lost, path);
        return WalkError;
      }
      ghost var v := Visit(path, kus);
      RecordVisit(env, start, files0, visited, visits, v);
      visits := visits + [v];
      assert Valid();
      r := RecurseAll(path, kus, old(visited), |old(visits)|);
    }

    /** The loop over resources and components, after the visit. */
    method RecurseAll(path: string, kus: Kustomization, ghost before: set<Components>, ghost n: nat)
      returns (r: Walked)
      requires Valid() && n + 1 == |visits| && visits[n].path == path && visits[n].kus == kus
      requires visited == before + {Landing(env.root, path)} && Landing(env.root, path) in env.dirs
      modifies this
      decreases env.dirs - visited, 1
      ensures old(visits) <= visits && old(visited) <= visited
      ensures r == WalkOk || r == WalkError
      ensures r != WalkError ==> Valid()
      ensures r != WalkError ==> Explored(env, path, before, n, visited, visits)
      ensures r == WalkError ==>
                Recorded(env, start, files0, visited, visits) && exists p :: Blamed(env, start, files0, visits, lost, p)
    {
      hide Landing, From, References, Stream, Decrypted, Firsts, FilesOf, Load, Recorded, Partly, Explored, CameFrom,
           Blamed;
      var children := kus.resources + kus.components;
      PartlyStart(env, path, before, n, visited, visits);
      for i := 0 to |children|
        invariant Valid() && old(visits) <= visits && old(visited) <= visited
        invariant Partly(env, path, before, n, visited, visits, children[..i])
      {
        ghost var visits1, visited1 := visits, visited;
        var child := From(path, children[i]);
        ChildCameFrom(start, visits, n, children[i]);
        var walked := Recurse(child);
        if walked == WalkError {
          return WalkError;
        }
        ExploredChild(env, path, before, n, visited1, visits1, children, i, visited, visits);
      }
      assert children[..|children|] == children;
      PartlyEnd(env, path, before, n, visited, visits, children);
      return WalkOk;
    }
  }

  lemma ChildCameFrom(start: string, visits: seq<Visit>, n: nat, c: string)
    requires n < |visits| && c in Children(visits[n].kus)
    ensures CameFrom(start, visits, From(visits[n].path, c))
  {
  }

  lemma PartlyStart(env: Env, path: string, before: set<Components>, n: nat,
                    visited: set<Components>, visits: seq<Visit>)
    requires n + 1 == |visits| && visits[n].path == path && visited == before + {Landing(env.root, path)}
    ensures Partly(env, path, before, n, visited, visits, [])
  {
    assert DirOf(env, visits[n]) == Landing(env.root, path);
    assert VisitedSince(env, visits, n, Landing(env.root, path));
  }

  lemma PartlyEnd(env: Env, path: string, before: set<Components>, n: nat,
                  visited: set<Components>, visits: seq<Visit>, children: seq<string>)
    requires n < |visits| && Children(visits[n].kus) == children
    requires Partly(env, path, before, n, visited, visits, children)
    ensures Explored(env, path, before, n, visited, visits)
  {
  }

  /** Explored, for the children walked so far. */
  ghost predicate Partly(env: Env, path: string, before: set<Components>, n: nat,
                         visited: set<Components>, visits: seq<Visit>, walked: seq<string>)
  {
    && n < |visits| && visits[n].path == path
    && before <= visited && Landing(env.root, path) in visited
    && (forall l :: l in visited && l !in before ==> l == Landing(env.root, path) || Child(env, visits, n, l))
    && (forall l :: l in visited && l !in before && l in env.dirs ==> VisitedSince(env, visits, n, l))
    && (forall c :: c in walked ==> Landing(env.root, From(path, c)) in visited)
    && (forall i, c :: n < i < |visits| && c in Children(visits[i].kus) ==>
          Landing(env.root, From(visits[i].path, c)) in visited)
  }

  lemma ExploredChild(env: Env, path: string, before: set<Components>, n: nat,
                      visited1: set<Components>, visits1: seq<Visit>, children: seq<string>, i: nat,
                      visited: set<Components>, visits: seq<Visit>)
    requires i < |children| && visits1 <= visits
    requires Partly(env, path, before, n, visited1, visits1, children[..i])
    requires children == Children(visits1[n].kus)
    requires Explored(env, From(path, children[i]), visited1, |visits1|, visited, visits)
    ensures Partly(env, path, before, n, visited, visits, children[..i + 1])
  {
    var child := Landing(env.root, From(path, children[i]));
    forall l | l in visited && l !in before
      ensures l == Landing(env.root, path) || Child(env, visits, n, l)
      ensures l in env.dirs ==> VisitedSince(env, visits, n, l)
    {
      if l in visited1 {
        if Child(env, visits1, n, l) {
          var j, c :| n <= j < |visits1| && c in Children(visits1[j].kus)
                      && l == Landing(env.root, From(visits1[j].path, c));
          assert visits[j] == visits1[j];
        }
        if l in env.dirs {
          var j :| n <= j < |visits1| && DirOf(env, visits1[j]) == l;
          assert visits[j] == visits1[j];
        }
      } else {
        if l == child {
          assert visits[n] == visits1[n] && children[i] in Children(visits[n].kus);
        } else {
          var j, c :| |visits1| <= j < |visits| && c in Children(visits[j].kus)
                      && l == Landing(env.root, From(visits[j].path, c));
          assert Child(env, visits, n, l);
        }
      }
    }
    forall j, c | n < j < |visits| && c in Children(visits[j].kus)
      ensures Landing(env.root, From(visits[j].path, c)) in visited
    {
      if j < |visits1| {
        assert visits[j] == visits1[j];
      }
    }
    forall c | c in children[..i + 1]
      ensures Landing(env.root, From(path, c)) in visited
    {
      if c !in children[..i] {
        assert c == children[i];
      }
    }
  }

  // ------------------------------------------------------------ lemmas on the record

  lemma FilesOfAppend(ts: seq<Target>, t: Target)
    ensures FilesOf(ts + [t]) == FilesOf(ts) + {t.file}
  {
    assert (ts + [t])[|ts|] == t;
    forall f | f in FilesOf(ts)
      ensures f in FilesOf(ts + [t])
    {
      var x :| x in ts && x.file == f;
      assert x in ts + [t];
    }
  }

  lemma {:induction false} FirstsFiles(ts: seq<Target>)
    ensures FilesOf(Firsts(ts)) == FilesOf(ts)
  {
    if ts != [] {
      var n := |ts| - 1;
      FirstsFiles(ts[..n]);
      assert ts == ts[..n] + [ts[n]];
      FilesOfAppend(ts[..n], ts[n]);
      if ts[n].file !in FilesOf(ts[..n]) {
        FilesOfAppend(Firsts(ts[..n]), ts[n]);
      } else {
        assert Firsts(ts) == Firsts(ts[..n]);
      }
    }
  }

  lemma FirstsStep(ts: seq<Target>, t: Target)
    ensures Firsts(ts + [t]) == if t.file in FilesOf(Firsts(ts)) then Firsts(ts) else Firsts(ts) + [t]
  {
    assert (ts + [t])[..|ts + [t]| - 1] == ts;
    FirstsFiles(ts);
  }

  lemma RecordVisit(env: Env, start: string, files0: Files, visited: set<Components>, visits: seq<Visit>, v: Visit)
    requires Recorded(env, start, files0, visited - {DirOf(env, v)}, visits)
    requires DirOf(env, v) in env.dirs && DirOf(env, v) in visited
    requires CameFrom(start, visits, v.path)
    requires Load(env, FilesAfter(env, files0, visits), DirOf(env, v)) == Some(v.kus)
    ensures Recorded(env, start, files0, visited, visits + [v])
    ensures Stream(env, visits + [v]) == Stream(env, visits) + Targets(env, v.path, References(v.kus, env.remote))
  {
    hide Load, FilesAfter, Landing, References, Targets, CameFrom;
    var visits' := visits + [v];
    assert visits'[..|visits|] == visits;
    forall i | 0 <= i < |visits'|
      ensures CameFrom(start, visits'[..i], visits'[i].path)
      ensures Load(env, FilesAfter(env, files0, visits'[..i]), DirOf(env, visits'[i])) == Some(visits'[i].kus)
    {
      if i < |visits| {
        assert visits'[..i] == visits[..i];
      }
    }
  }

  // ------------------------------------------------------------ decrypted exactly once

  ghost predicate Distinct(ts: seq<Target>) {
    forall i, j :: 0 <= i < j < |ts| ==> ts[i].file != ts[j].file
  }

  /** Decrypting targets in order leaves every other file alone and loses none. */
  lemma {:induction false} DecryptedFiles(env: Env, files: Files, ts: seq<Target>)
    ensures Decrypted(env, files, ts).Keys == files.Keys
    ensures forall f :: f in files && f !in FilesOf(ts) ==> Decrypted(env, files, ts)[f] == files[f]
  {
    if ts != [] {
      var n := |ts| - 1;
      DecryptedFiles(env, files, ts[..n]);
      assert ts == ts[..n] + [ts[n]];
      FilesOfAppend(ts[..n], ts[n]);
    }
  }

  lemma DecryptedStep(env: Env, files: Files, ts: seq<Target>, t: Target)
    requires t.file in files && t.file !in FilesOf(ts) && Plain(env, files[t.file], t.format).Some?
    ensures Decrypted(env, files, ts + [t])
            == Decrypted(env, files, ts)[t.file := Plain(env, files[t.file], t.format).value]
  {
    hide Plain;
    assert (ts + [t])[..|ts|] == ts;
    DecryptedFiles(env, files, ts);
  }

  /** Each target file holds its original content, or the single decryption of it. */
  lemma {:induction false} DecryptedOnce(env: Env, files: Files, ts: seq<Target>, k: nat)
    requires Distinct(ts) && Decryptable(env, files, ts) && k < |ts|
    ensures ts[k] in ts && ts[k].file in Decrypted(env, files, ts)
    ensures Decrypted(env, files, ts)[ts[k].file] == Plain(env, files[ts[k].file], ts[k].format).value
  {
    hide Plain, Decrypted;
    var n := |ts| - 1;
    assert ts == ts[..n] + [ts[n]] && ts[n] in ts && ts[k] in ts;
    assert ts[n].file !in FilesOf(ts[..n]);
    DecryptedStep(env, files, ts[..n], ts[n]);
    if k < n {
      assert ts[..n][k] == ts[k];
      DecryptedOnce(env, files, ts[..n], k);
    }
  }

  lemma {:induction false} FirstsDistinct(ts: seq<Target>)
    ensures Distinct(Firsts(ts))
  {
    if ts != [] {
      var n := |ts| - 1;
      FirstsDistinct(ts[..n]);
      FirstsFiles(ts[..n]);
      var before := Firsts(ts[..n]);
      forall i | 0 <= i < |before|
        ensures before[i].file in FilesOf(ts[..n])
      {
        assert before[i] in before;
      }
    }
  }

  /** The first reference to a file is kept, */
  lemma {:induction false} FirstIsKept(ts: seq<Target>, k: nat)
    requires k < |ts| && ts[k].file !in FilesOf(ts[..k])
    ensures ts[k] in Firsts(ts)
  {
    var n := |ts| - 1;
    if k < n {
      assert ts[..n][k] == ts[k] && ts[..n][..k] == ts[..k];
      FirstIsKept(ts[..n], k);
    } else {
      assert Firsts(ts)[|Firsts(ts[..n])|] == ts[n];
    }
  }

  /** and nothing else is. */
  lemma {:induction false} KeptIsFirst(ts: seq<Target>, t: Target) returns (k: nat)
    requires t in Firsts(ts)
    ensures k < |ts| && ts[k] == t && t.file !in FilesOf(ts[..k])
  {
    var n := |ts| - 1;
    if t in Firsts(ts[..n]) {
      k := KeptIsFirst(ts[..n], t);
      assert ts[..n][..k] == ts[..k];
    } else {
      k := n;
    }
  }

  // ------------------------------------------------------------ DecryptSources

  /** A walk that returned without an error. */
  ghost predicate Completed(env: Env, start: string, files0: Files, visited: set<Components>, visits: seq<Visit>,
                            files: Files) {
    && Recorded(env, start, files0, visited, visits)
    && Explored(env, start, {}, 0, visited, visits)
    && files == FilesAfter(env, files0, visits)
    && Decryptable(env, files0, Firsts(Stream(env, visits)))
  }

  /** enabled: the spec asks for decryption by SOPS. */
  method DecryptSources(env: Env, enabled: bool, files: Files, path: string)
    returns (r: Walked, files': Files, visited: set<Components>, ghost visits: seq<Visit>, ghost lost: set<Components>)
    ensures !enabled ==> r == WalkOk && files' == files && visited == {}
    ensures enabled && r == WalkOk ==> Completed(env, path, files, visited, visits, files')
    ensures r == WalkIgnore <==>
            enabled && Landing(env.root, path) !in env.dirs && !ThroughFile(files, Landing(env.root, path))
    ensures r == WalkIgnore ==> files' == files
    ensures r == WalkError ==>
              Recorded(env, path, files, visited, visits) && exists p :: Blamed(env, path, files, visits, lost, p)
  {
    if !enabled {
      return WalkOk, files, {}, [], {};
    }
    var w := new Walker(env, files, path);
    r := w.Recurse(path);
    return r, w.files, w.visited, w.visits, w.lost;
  }

  // ------------------------------------------------------------ theorems on files

  lemma {:induction false} InStream(env: Env, visits: seq<Visit>, i: nat, j: nat)
    requires i < |visits| && j < |References(visits[i].kus, env.remote)|
    ensures Targets(env, visits[i].path, References(visits[i].kus, env.remote))[j] in Stream(env, visits)
  {
    hide References, Targets;
    var n := |visits| - 1;
    if i < n {
      assert visits[..n][i] == visits[i];
      InStream(env, visits[..n], i, j);
    }
  }

  lemma {:induction false} FirstReference(ts: seq<Target>, f: Components) returns (k: nat)
    requires f in FilesOf(ts)
    ensures k < |ts| && ts[k].file == f && f !in FilesOf(ts[..k])
  {
    var n := |ts| - 1;
    assert ts == ts[..n] + [ts[n]];
    FilesOfAppend(ts[..n], ts[n]);
    if f in FilesOf(ts[..n]) {
      k := FirstReference(ts[..n], f);
      assert ts[..n][..k] == ts[..k];
    } else {
      k := n;
    }
  }

  lemma {:induction false} FromStream(env: Env, visits: seq<Visit>, t: Target) returns (i: nat, j: nat)
    requires t in Stream(env, visits)
    ensures i < |visits| && j < |References(visits[i].kus, env.remote)|
    ensures t == Targets(env, visits[i].path, References(visits[i].kus, env.remote))[j]
  {
    var n := |visits| - 1;
    if t in Stream(env, visits[..n]) {
      i, j := FromStream(env, visits[..n], t);
    } else {
      i := n;
      j :| 0 <= j < |References(visits[n].kus, env.remote)|
           && t == Targets(env, visits[n].path, References(visits[n].kus, env.remote))[j];
    }
  }

  lemma FirstReferenceDecides(env: Env, start: string, files0: Files, visited: set<Components>, visits: seq<Visit>,
                              files: Files, k: nat)
    requires Completed(env, start, files0, visited, visits, files)
    requires k < |Stream(env, visits)|
    requires Stream(env, visits)[k].file !in FilesOf(Stream(env, visits)[..k])
    ensures var t := Stream(env, visits)[k];
            && t.file in files0 && t.file in files && Plain(env, files0[t.file], t.format).Some?
            && files[t.file] == Plain(env, files0[t.file], t.format).value
    ensures files.Keys == files0.Keys
  {
    hide Stream, Plain, Recorded, Explored, Decrypted;
    var stream := Stream(env, visits);
    var firsts := Firsts(stream);
    FirstIsKept(stream, k);
    FirstsDistinct(stream);
    var m :| 0 <= m < |firsts| && firsts[m] == stream[k];
    DecryptedOnce(env, files0, firsts, m);
    DecryptedFiles(env, files0, firsts);
  }

  /** Decrypted exactly once: after a successful walk, the file that anything in the fields of a
      visited Kustomization file refers to, by whatever spelling, holds its original content, or
      the single decryption of it if the marker occurs in it; the first reference to it, number k
      of the whole walk, decides the format.  No file appears or disappears. */
  lemma DecryptExactlyOnce(env: Env, start: string, files0: Files, visited: set<Components>, visits: seq<Visit>,
                           files: Files, i: nat, ref: Ref) returns (k: nat)
    requires Completed(env, start, files0, visited, visits, files)
    requires i < |visits| && Refers(visits[i].kus, env.remote, ref)
    ensures var f := Landing(env.root, From(visits[i].path, ref.path));
            && k < |Stream(env, visits)|
            && Stream(env, visits)[k].file == f && f !in FilesOf(Stream(env, visits)[..k])
            && f in files0 && f in files
            && var format := Stream(env, visits)[k].format;
               if Contains(files0[f], Marker(format)) then env.decrypt(files0[f], format) == Some(files[f])
               else files[f] == files0[f]
    ensures files.Keys == files0.Keys
  {
    hide Stream, Recorded, Explored, Decrypted, Landing, From, References, Refers, Contains;
    ReferencesAreFields(visits[i].kus, env.remote, ref);
    var j :| 0 <= j < |References(visits[i].kus, env.remote)| && References(visits[i].kus, env.remote)[j] == ref;
    InStream(env, visits, i, j);
    var t := Targets(env, visits[i].path, References(visits[i].kus, env.remote))[j];
    k := FirstReference(Stream(env, visits), t.file);
    FirstReferenceDecides(env, start, files0, visited, visits, files, k);
  }

  /** All other files are untouched. */
  lemma OtherFilesUntouched(env: Env, start: string, files0: Files, visited: set<Components>, visits: seq<Visit>,
                            files: Files, f: Components)
    requires Completed(env, start, files0, visited, visits, files)
    requires f in files0
    requires forall i, ref :: 0 <= i < |visits| && Refers(visits[i].kus, env.remote, ref) ==>
               Landing(env.root, From(visits[i].path, ref.path)) != f
    ensures f in files && files[f] == files0[f]
  {
    hide Stream, Plain, Recorded, Explored, Decrypted, Landing, From, References, Refers;
    var stream := Stream(env, visits);
    FirstsFiles(stream);
    DecryptedFiles(env, files0, Firsts(stream));
    if f in FilesOf(stream) {
      var t :| t in stream && t.file == f;
      var i, j := FromStream(env, visits, t);
      var ref := References(visits[i].kus, env.remote)[j];
      ReferencesAreFields(visits[i].kus, env.remote, ref);
    }
  }

  // ------------------------------------------------------------ theorems on the graph

  ghost predicate IsKustomizationFile(f: Components) {
    f != [] && f[|f| - 1] in FileNames
  }

  /** No Kustomization file is itself a source file of a visited one. */
  ghost predicate SourcesDisjoint(env: Env, visits: seq<Visit>) {
    forall i, ref :: 0 <= i < |visits| && ref in References(visits[i].kus, env.remote) ==>
                       !IsKustomizationFile(Landing(env.root, From(visits[i].path, ref.path)))
  }

  lemma LoadStable(env: Env, a: Files, b: Files, dir: Components)
    requires a.Keys == b.Keys && forall f :: f in a && IsKustomizationFile(f) ==> a[f] == b[f]
    ensures Load(env, a, dir) == Load(env, b, dir)
  {
    forall i | 0 <= i < 3
      ensures IsKustomizationFile(dir + [FileNames[i]])
    {
      assert (dir + [FileNames[i]])[|dir|] == FileNames[i];
    }
    assert (set i | 0 <= i < 3 && dir + [FileNames[i]] in a) == (set i | 0 <= i < 3 && dir + [FileNames[i]] in b);
  }

  ghost predicate LoadedFrom(env: Env, files0: Files, visits: seq<Visit>) {
    forall i :: 0 <= i < |visits| ==> Load(env, files0, Landing(env.root, visits[i].path)) == Some(visits[i].kus)
  }

  lemma TargetsAreNotGraph(env: Env, visits: seq<Visit>, t: Target)
    requires SourcesDisjoint(env, visits) && t in Stream(env, visits)
    ensures !IsKustomizationFile(t.file)
  {
    hide References, From, Landing, IsKustomizationFile, Stream;
    var i, j := FromStream(env, visits, t);
    var refs := References(visits[i].kus, env.remote);
    assert refs[j] in refs;
    assert !IsKustomizationFile(Landing(env.root, From(visits[i].path, refs[j].path)));
  }

  lemma LoadAfterSources(env: Env, files0: Files, visits: seq<Visit>, dir: Components)
    requires SourcesDisjoint(env, visits)
    ensures Load(env, FilesAfter(env, files0, visits), dir) == Load(env, files0, dir)
  {
    hide Load, IsKustomizationFile, Stream, Decrypted, Firsts, SourcesDisjoint;
    var stream := Stream(env, visits);
    FirstsFiles(stream);
    DecryptedFiles(env, files0, Firsts(stream));
    forall t | t in stream
      ensures !IsKustomizationFile(t.file)
    {
      TargetsAreNotGraph(env, visits, t);
    }
    LoadStable(env, FilesAfter(env, files0, visits), files0, dir);
  }

  lemma RecordedAt(env: Env, start: string, files0: Files, visited: set<Components>, visits: seq<Visit>, i: nat)
    requires Recorded(env, start, files0, visited, visits) && i < |visits|
    ensures Load(env, FilesAfter(env, files0, visits[..i]), DirOf(env, visits[i])) == Some(visits[i].kus)
    ensures CameFrom(start, visits[..i], visits[i].path)
  {
  }

  lemma DisjointPrefix(env: Env, visits: seq<Visit>, n: nat)
    requires n <= |visits| && SourcesDisjoint(env, visits)
    ensures SourcesDisjoint(env, visits[..n])
  {
    hide References, From, Landing, IsKustomizationFile;
  }

  /** Decrypting sources does not change the graph that is being walked. */
  lemma {:induction false} GraphStable(env: Env, start: string, files0: Files, visited: set<Components>,
                                       visits: seq<Visit>, n: nat)
    requires Recorded(env, start, files0, visited, visits)
    requires n <= |visits| && SourcesDisjoint(env, visits[..n])
    ensures LoadedFrom(env, files0, visits[..n])
  {
    hide Load, Landing, FilesAfter, SourcesDisjoint, Recorded;
    if n > 0 {
      DisjointPrefix(env, visits[..n], n - 1);
      assert visits[..n][..n - 1] == visits[..n - 1];
      GraphStable(env, start, files0, visited, visits, n - 1);
      LoadAfterSources(env, files0, visits[..n - 1], DirOf(env, visits[n - 1]));
      RecordedAt(env, start, files0, visited, visits, n - 1);
      forall i | 0 <= i < n
        ensures Load(env, files0, Landing(env.root, visits[..n][i].path)) == Some(visits[..n][i].kus)
      {
        if i < n - 1 {
          assert visits[..n - 1][i] == visits[i];
        }
      }
    }
  }

  /** Every reference of a visited Kustomization file to another one stays below root. */
  ghost predicate ScopedGraph(env: Env, visits: seq<Visit>) {
    forall i, c :: 0 <= i < |visits| && c in Children(visits[i].kus) ==> Scoped(env.root, DirOf(env, visits[i]), c)
  }

  /** S holds every directory or file that a Kustomization file in S refers to. */
  ghost predicate Closed(env: Env, files0: Files, s: iset<Components>) {
    forall d, c :: d in s && d in env.dirs
                   && (var loaded := Load(env, files0, d); loaded.Some? && c in Children(loaded.value)) ==>
                     Meant(env.root, d, c) in s
  }

  lemma ScopedChild(env: Env, visits: seq<Visit>, i: nat, c: string)
    requires ScopedGraph(env, visits)
    requires i < |visits| && c in Children(visits[i].kus)
    requires Spells(env.root, visits[i].path, DirOf(env, visits[i]))
    ensures var child := Meant(env.root, DirOf(env, visits[i]), c);
            Spells(env.root, From(visits[i].path, c), child) && Landing(env.root, From(visits[i].path, c)) == child
  {
    var d := DirOf(env, visits[i]);
    assert Scoped(env.root, d, c);
    if IsAbs(c) {
      AbsoluteSpells(env.root, c);
    } else {
      JoinSpells(env.root, visits[i].path, d, c);
    }
    SpellsLanding(env.root, From(visits[i].path, c), Meant(env.root, d, c));
  }

  /** Every visit is reached by some spelling of its directory. */
  lemma {:induction false} VisitsSpell(env: Env, start: string, files0: Files, visited: set<Components>,
                                       visits: seq<Visit>, i: nat)
    requires Recorded(env, start, files0, visited, visits)
    requires ScopedGraph(env, visits) && Spells(env.root, start, Landing(env.root, start))
    requires i < |visits|
    ensures Spells(env.root, visits[i].path, DirOf(env, visits[i]))
  {
    hide Spells, Landing, From, Load, Children, Stream, Firsts, Decrypted, ScopedGraph, Meant, FilesAfter;
    assert CameFrom(start, visits[..i], visits[i].path);
    if visits[i].path != start {
      var j, c :| 0 <= j < i && c in Children(visits[..i][j].kus) && visits[i].path == From(visits[..i][j].path, c);
      VisitsSpell(env, start, files0, visited, visits, j);
      ScopedChild(env, visits, j, c);
    }
  }

  /** The recursive walk: whatever cycles the references form, when it returns without an error
      the marked locations hold the start and are closed under references, */
  lemma VisitedIsClosed(env: Env, start: string, files0: Files, visited: set<Components>, visits: seq<Visit>,
                        files: Files)
    requires Completed(env, start, files0, visited, visits, files)
    requires SourcesDisjoint(env, visits) && ScopedGraph(env, visits)
    requires Spells(env.root, start, Landing(env.root, start))
    ensures Landing(env.root, start) in visited
    ensures Closed(env, files0, iset l | l in visited)
  {
    hide Spells, Landing, From, Load, Children, Stream, Firsts, Decrypted, ScopedGraph, Meant, FilesAfter, CameFrom,
         SourcesDisjoint;
    assert visits[..|visits|] == visits;
    GraphStable(env, start, files0, visited, visits, |visits|);
    forall d, c | d in visited && d in env.dirs && Load(env, files0, d).Some? && c in Children(Load(env, files0, d).value)
      ensures Meant(env.root, d, c) in visited
    {
      assert VisitedSince(env, visits, 0, d);
      var i :| 0 <= i < |visits| && DirOf(env, visits[i]) == d;
      VisitsSpell(env, start, files0, visited, visits, i);
      ScopedChild(env, visits, i, c);
    }
  }

  lemma {:induction false} VisitsIn(env: Env, start: string, files0: Files, visited: set<Components>,
                                    visits: seq<Visit>, i: nat, s: iset<Components>)
    requires Recorded(env, start, files0, visited, visits) && LoadedFrom(env, files0, visits)
    requires ScopedGraph(env, visits) && Spells(env.root, start, Landing(env.root, start))
    requires Closed(env, files0, s) && Landing(env.root, start) in s
    requires i < |visits|
    ensures DirOf(env, visits[i]) in s
  {
    hide Spells, Landing, From, Load, Children, Stream, Firsts, Decrypted, ScopedGraph, Meant, FilesAfter;
    assert CameFrom(start, visits[..i], visits[i].path);
    if visits[i].path != start {
      var j, c :| 0 <= j < i && c in Children(visits[..i][j].kus) && visits[i].path == From(visits[..i][j].path, c);
      VisitsIn(env, start, files0, visited, visits, j, s);
      ChildIn(env, start, files0, visited, visits, j, c, s);
    }
  }

  lemma ChildIn(env: Env, start: string, files0: Files, visited: set<Components>, visits: seq<Visit>,
                j: nat, c: string, s: iset<Components>)
    requires Recorded(env, start, files0, visited, visits) && LoadedFrom(env, files0, visits)
    requires ScopedGraph(env, visits) && Spells(env.root, start, Landing(env.root, start))
    requires Closed(env, files0, s) && j < |visits| && c in Children(visits[j].kus) && DirOf(env, visits[j]) in s
    ensures Landing(env.root, From(visits[j].path, c)) in s
  {
    hide Spells, From, Load, Children, Stream, Firsts, Decrypted, ScopedGraph, Meant, FilesAfter, CameFrom, Landing;
    VisitsSpell(env, start, files0, visited, visits, j);
    ScopedChild(env, visits, j, c);
    var d := DirOf(env, visits[j]);
    assert Load(env, files0, d) == Some(visits[j].kus);
    assert Meant(env.root, d, c) in s;
  }

  /** and nothing else is marked: they are in every closed set that holds the start. */
  lemma VisitedIsLeast(env: Env, start: string, files0: Files, visited: set<Components>, visits: seq<Visit>,
                       files: Files, s: iset<Components>)
    requires Completed(env, start, files0, visited, visits, files)
    requires SourcesDisjoint(env, visits) && ScopedGraph(env, visits)
    requires Spells(env.root, start, Landing(env.root, start))
    requires Closed(env, files0, s) && Landing(env.root, start) in s
    ensures forall l :: l in visited ==> l in s
  {
    hide Spells, From, Load, Children, Stream, Firsts, Decrypted, ScopedGraph, Meant, FilesAfter, CameFrom, Landing,
         SourcesDisjoint, Closed;
    assert visits[..|visits|] == visits;
    GraphStable(env, start, files0, visited, visits, |visits|);
    forall l | l in visited
      ensures l in s
    {
      if l != Landing(env.root, start) {
        assert Child(env, visits, 0, l);
        var i, c :| 0 <= i < |visits| && c in Children(visits[i].kus)
                    && l == Landing(env.root, From(visits[i].path, c));
        VisitsIn(env, start, files0, visited, visits, i, s);
        ChildIn(env, start, files0, visited, visits, i, c, s);
      }
    }
  }

  /** The two conditions on visits, for the files before the walk: within s, references stay
      below root and no Kustomization file is a source, by any spelling of the directory. */
  ghost predicate WellBehaved(env: Env, files0: Files, s: iset<Components>) {
    forall d :: d in s && d in env.dirs && Load(env, files0, d).Some? ==>
                  WellBehavedAt(env, d, Load(env, files0, d).value)
  }

  ghost predicate WellBehavedAt(env: Env, d: Components, kus: Kustomization) {
    && (forall c :: c in Children(kus) ==> Scoped(env.root, d, c))
    && (forall path, ref :: Spells(env.root, path, d) && ref in References(kus, env.remote) ==>
          !IsKustomizationFile(Landing(env.root, From(path, ref.path))))
  }

  /** The n-th visit lies in s, is reached by a spelling of its directory and loads what was
      there before the walk. */
  lemma NextVisit(env: Env, start: string, files0: Files, visited: set<Components>, visits: seq<Visit>,
                  n: nat, s: iset<Components>)
    requires Recorded(env, start, files0, visited, visits) && n < |visits|
    requires Spells(env.root, start, Landing(env.root, start))
    requires Closed(env, files0, s) && Landing(env.root, start) in s
    requires SourcesDisjoint(env, visits[..n]) && ScopedGraph(env, visits[..n])
    requires forall i :: 0 <= i < n ==> DirOf(env, visits[i]) in s
                                        && Spells(env.root, visits[i].path, DirOf(env, visits[i]))
    ensures DirOf(env, visits[n]) in s && Spells(env.root, visits[n].path, DirOf(env, visits[n]))
    ensures DirOf(env, visits[n]) in env.dirs && Load(env, files0, DirOf(env, visits[n])) == Some(visits[n].kus)
  {
    hide Spells, From, Load, Children, Stream, Firsts, Decrypted, ScopedGraph, Meant, FilesAfter, Landing, SourcesDisjoint;
    RecordedAt(env, start, files0, visited, visits, n);
    LoadAfterSources(env, files0, visits[..n], DirOf(env, visits[n]));
    GraphStable(env, start, files0, visited, visits, n);
    if visits[n].path != start {
      var j, c :| 0 <= j < n && c in Children(visits[..n][j].kus) && visits[n].path == From(visits[..n][j].path, c);
      ScopedChild(env, visits[..n], j, c);
      var d := DirOf(env, visits[j]);
      assert Load(env, files0, Landing(env.root, visits[..n][j].path)) == Some(visits[..n][j].kus);
      assert Meant(env.root, d, c) in s;
    }
  }

  lemma NoVisits(env: Env)
    ensures SourcesDisjoint(env, []) && ScopedGraph(env, [])
  {
  }

  lemma OneMoreVisit(env: Env, visits: seq<Visit>, v: Visit)
    requires SourcesDisjoint(env, visits) && ScopedGraph(env, visits)
    requires WellBehavedAt(env, DirOf(env, v), v.kus) && Spells(env.root, v.path, DirOf(env, v))
    ensures SourcesDisjoint(env, visits + [v]) && ScopedGraph(env, visits + [v])
  {
    hide Spells, From, Children, Landing, References, IsKustomizationFile, Scoped;
  }

  /** Both conditions can be read off the files before the walk: it is enough that they hold in
      some closed set with the start, such as the directories reachable from it. */
  lemma {:induction false} KnownBeforehand(env: Env, start: string, files0: Files, visited: set<Components>,
                                           visits: seq<Visit>, n: nat, s: iset<Components>)
    requires Recorded(env, start, files0, visited, visits) && n <= |visits|
    requires Spells(env.root, start, Landing(env.root, start))
    requires Closed(env, files0, s) && Landing(env.root, start) in s && WellBehaved(env, files0, s)
    ensures SourcesDisjoint(env, visits[..n]) && ScopedGraph(env, visits[..n])
    ensures forall i :: 0 <= i < n ==> DirOf(env, visits[i]) in s
                                       && Spells(env.root, visits[i].path, DirOf(env, visits[i]))
  {
    hide Spells, Load, Landing, Closed, SourcesDisjoint, ScopedGraph, WellBehavedAt, Recorded;
    if n == 0 {
      NoVisits(env);
    } else {
      KnownBeforehand(env, start, files0, visited, visits, n - 1, s);
      NextVisit(env, start, files0, visited, visits, n - 1, s);
      var v := visits[n - 1];
      assert WellBehavedAt(env, DirOf(env, v), v.kus);
      assert visits[..n] == visits[..n - 1] + [v];
      OneMoreVisit(env, visits[..n - 1], v);
    }
  }

  /** Each reachable directory is visited, once; missing and other targets are leaves. */
  lemma VisitedExactlyOnce(env: Env, start: string, files0: Files, visited: set<Components>, visits: seq<Visit>,
                           files: Files, l: Components) returns (i: nat)
    requires Completed(env, start, files0, visited, visits, files)
    requires l in visited && l in env.dirs
    ensures i < |visits| && DirOf(env, visits[i]) == l
    ensures forall j :: 0 <= j < |visits| && DirOf(env, visits[j]) == l ==> j == i
    ensures forall j :: 0 <= j < |visits| ==> DirOf(env, visits[j]) in visited && DirOf(env, visits[j]) in env.dirs
  {
    assert VisitedSince(env, visits, 0, l);
    i :| 0 <= i < |visits| && DirOf(env, visits[i]) == l;
  }
}
