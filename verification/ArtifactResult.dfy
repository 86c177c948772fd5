/** The exact domains on which parsing an image reference is faithful. */
module ArtifactResult {
  import opened Wrappers
  import opened Sequences
  import opened Strings
  import opened Artifact
  import opened ArtifactRoundTrip

  lemma WithRegistrySlash(a: string, b: string)
    requires '/' !in a
    ensures WithRegistry(a + "/" + b) == if '.' in a then a + "/" + b else "docker.io/" + (a + "/" + b)
  {
    var s := a + ['/'] + b;
    FirstChar(a, '/', b);
    NoChar(s, '/');
    NoChar(a, '.');
    assert a + "/" + b == s && s[..|a|] == a;
  }

  lemma CutAtSlash(repo: string) returns (a: string, b: string)
    requires '/' in repo
    ensures '/' !in a && repo == a + "/" + b
  {
    var i := Index(repo, "/");
    NoChar(repo, '/');
    CharAt(repo, '/', i);
    a, b := repo[..i], repo[i + 1..];
    forall k | 0 <= k < |a| ensures a[k] != '/' {
      CharAt(repo, '/', k);
    }
  }

  lemma SuffixAfterSlash(a: string, b: string, x: string)
    requires '/' !in a
    ensures WithRegistry((a + "/" + b) + x) == WithRegistry(a + "/" + b) + x
  {
    WithRegistrySlash(a, b);
    WithRegistrySlash(a, b + x);
    Associate(a + "/", b, x);
    Associate("docker.io/", a + "/" + b, x);
  }

  lemma SuffixWithoutSlash(repo: string, x: string)
    requires '/' !in repo && '/' !in x
    ensures WithRegistry(repo + x) == WithRegistry(repo) + x
  {
    NoChar(repo, '/');
    NoChar(repo + x, '/');
    Associate("docker.io/", repo, x);
  }

  /** What follows a reference without a slash does not change which registry it names. */
  lemma RegistryIgnoresSuffix(repo: string, x: string)
    requires '/' !in x
    ensures WithRegistry(repo + x) == WithRegistry(repo) + x
  {
    if '/' in repo {
      var a, b := CutAtSlash(repo);
      SuffixAfterSlash(a, b, x);
    } else {
      SuffixWithoutSlash(repo, x);
    }
  }

  lemma CutTagOf(repo: string, tag: string)
    requires ':' !in tag
    ensures CutTag(repo + ":" + tag) == (repo, tag)
  {
    var s := repo + [':'] + tag;
    LastChar(repo, ':', tag);
    assert repo + ":" + tag == s && s[..|repo|] == repo && s[|repo| + 1..] == tag;
  }

  lemma CutTagNone(repo: string)
    ensures ':' !in repo ==> CutTag(repo) == (repo, "")
    ensures ':' in repo ==> |CutTag(repo).0| < |repo|
  {
    NoChar(repo, ':');
  }

  lemma ParsePlain(image: string, imageID: string)
    requires '@' !in image && LastIndex(image, "sha256:") == -1
    ensures var cut := CutTag(WithRegistry(image));
      Parsed(image, imageID) == Ok(ArtifactID(WithDigest(cut.0, imageID), cut.1))
  {
    NoChar(image, '@');
  }

  /** A reference with a tag, without a digest marker in it. */
  lemma ParseTagged(repo: string, tag: string, imageID: string)
    requires '@' !in repo && IsTag(tag) && LastIndex(repo + ":" + tag, "sha256:") == -1
    ensures Parsed(repo + ":" + tag, imageID) == Ok(ArtifactID(WithDigest(WithRegistry(repo), imageID), tag))
  {
    ParsePlain(repo + ":" + tag, imageID);
    RegistryIgnoresSuffix(repo, ":" + tag);
    Associate(repo, ":", tag);
    Associate(WithRegistry(repo), ":", tag);
    CutTagOf(WithRegistry(repo), tag);
  }

  lemma RepoSlash(reg: string, ns: string, path: string)
    ensures Repo(reg, ns, path) == reg + "/" + (ns + "/" + path)
  {
  }

  lemma Slashes(a: string, b: string, c: string)
    ensures (a + "/") + (b + "/" + c) == a + "/" + b + "/" + c
  {
  }

  lemma RegistryOfRepo(reg: string, ns: string, path: string)
    requires Parts(reg, ns, path)
    ensures WithRegistry(Repo(reg, ns, path)) ==
            if '.' in reg then Repo(reg, ns, path) else Repo("docker.io", reg, ns + "/" + path)
  {
    RepoSlash(reg, ns, path);
    WithRegistrySlash(reg, ns + "/" + path);
    Slashes("docker.io", reg, ns + "/" + path);
  }

  // ---- The round trip ----

  /** The accessors return exactly the parts of the reference, the path percent-encoded. */
  predicate Faithful(r: Result<ArtifactID>, reg: string, ns: string, path: string, hex: string, tag: string) {
    && r.Ok?
    && Registry(r.value) == Ok(reg) && Namespace(r.value) == Ok(ns)
    && Repository(r.value) == Ok(PathEscape(path))
    && Digest(r.value) == "sha256:" + hex && Tag(r.value) == tag
  }

  /** The registry is one by the code's test, no part is taken for a digest, and a Docker Hub path is a
      single segment that needs no encoding. */
  predicate InDomain(reg: string, ns: string, path: string, tag: string) {
    && '.' in reg
    && LastIndex(Repo(reg, ns, path) + ":" + tag, "sha256:") == -1
    && (Contains(reg, "docker.io") ==> '/' !in path && forall c :: c in path ==> NeedsNoEscape(c))
  }

  lemma LastPartEscaped(path: string)
    ensures LastPart(path) == PathEscape(path) <==> '/' !in path && forall c :: c in path ==> NeedsNoEscape(c)
  {
    EscapeLength(path);
    LastPartOf(path);
    assert |LastPart(path)| <= |path|;
    if '/' in path {
      var front :| path == front + "/" + LastPart(path);
      assert |LastPart(path)| < |path|;
    }
  }

  lemma ColonPlace(reg: string, ns: string, path: string, tag: string, i: int)
    requires Parts(reg, ns, path) && IsTag(tag)
    requires 0 <= i < |Repo(reg, ns, path) + ":" + tag| && (Repo(reg, ns, path) + ":" + tag)[i] == ':'
    ensures i < |reg| || i == |Repo(reg, ns, path)|
  {
    var image, n := Repo(reg, ns, path) + ":" + tag, |Repo(reg, ns, path)|;
    forall k | |reg| <= k < n ensures image[k] != ':' {
      if |reg| < k <= |reg| + |ns| {
        assert image[k] == ns[k - |reg| - 1];
      } else if k > |reg| + 1 + |ns| {
        assert image[k] == path[k - |reg| - |ns| - 2];
      }
    }
    forall k | n < k < |image| ensures image[k] != ':' {
      assert image[k] == tag[k - n - 1];
    }
  }

  /** The marker's colon is in the registry: what is left names no registry. */
  lemma MarkerInRegistry(image: string, i: int, reg: string, pre: string, hex: string)
    requires '/' !in reg && 0 <= i <= |reg| && reg <= image && LastIndex(image, "sha256:") == i
    requires LastIndex(image, "@") == -1 && IsHex(hex) && i > 0
    ensures var r := Parsed(image, pre + "sha256:" + hex); r.Ok? && Registry(r.value) == Ok("docker.io")
  {
    var bare := image[..i];
    assert bare == reg[..i];
    NoChar(bare, '/');
    DockerHubOnly(bare, CutTag("docker.io/" + bare).1, pre, hex);
  }

  /** The marker's colon is the tag's: what is left has no tag of its own. */
  lemma MarkerAtTag(image: string, i: int, slash: int, imageID: string)
    requires 0 <= slash < i < |image| && LastIndex(image, "sha256:") == i && LastIndex(image, "@") == -1
    requires image[slash] == '/' && forall k :: slash < k < i ==> image[k] != ':'
    ensures var r := Parsed(image, imageID); r.Ok? && (Tag(r.value) == "" || '/' in Tag(r.value))
  {
    TagHasNoSlash(image[..i], slash, i);
  }

  /** A part that ends in "sha256" in front of a colon is taken for a digest. */
  lemma MarkerBreaks(reg: string, ns: string, path: string, tag: string, pre: string, hex: string)
    requires Parts(reg, ns, path) && IsTag(tag) && IsHex(hex)
    requires LastIndex(Repo(reg, ns, path) + ":" + tag, "sha256:") != -1
    ensures var r := Parsed(Repo(reg, ns, path) + ":" + tag, pre + "sha256:" + hex);
      r.Err? || Tag(r.value) != tag || Registry(r.value) != Ok(reg)
  {
    var image := Repo(reg, ns, path) + ":" + tag;
    var i := LastIndex(image, "sha256:");
    MarkerColon(image, "sha256:", i);
    ColonPlace(reg, ns, path, tag, i + 6);
    NoChar(image, '@');
    if i + 6 < |reg| {
      assert image[i + 6] == reg[i + 6] && reg <= image;
      assert reg != "docker.io";
      if i > 0 {
        MarkerInRegistry(image, i, reg, pre, hex);
      } else {
        assert image[..i] == "";
      }
    } else {
      MarkerAfterSlash(reg, ns, path, tag, i);
      MarkerAtTag(image, i, |reg|, pre + "sha256:" + hex);
    }
  }

  /** A slash in the kept text comes before its last colon or ends up in the tag. */
  lemma TagHasNoSlash(bare: string, slash: int, n: int)
    requires 0 <= slash < |bare| && bare[slash] == '/' && (forall k :: slash < k < |bare| ==> bare[k] != ':')
    ensures var t := CutTag(WithRegistry(bare)).1; t == "" || '/' in t
  {
    var full := WithRegistry(bare);
    var off := |full| - |bare|;
    assert full[off..] == bare;
    var j := LastIndex(full, ":");
    if j != -1 {
      CharAt(full, ':', j);
      assert j >= off ==> full[j] == bare[j - off];
      assert full[off + slash] == '/';
      assert full[j + 1..][off + slash - j - 1] == '/';
    }
  }

  lemma MarkerHasNoSlash(s: string, i: int)
    requires OccursAt(s, "sha256:", i)
    ensures forall k :: i <= k < i + 7 ==> s[k] != '/'
  {
    forall k | i <= k < i + 7 ensures s[k] != '/' {
      assert s[k] == s[i..i + 7][k - i] == "sha256:"[k - i];
    }
  }

  lemma MarkerAfterSlash(reg: string, ns: string, path: string, tag: string, i: int)
    requires Parts(reg, ns, path) && IsTag(tag)
    requires OccursAt(Repo(reg, ns, path) + ":" + tag, "sha256:", i) && i + 6 == |Repo(reg, ns, path)|
    ensures var image := Repo(reg, ns, path) + ":" + tag;
      |reg| < i && image[|reg|] == '/' && forall k :: |reg| < k < i ==> image[k] != ':'
  {
    var image := Repo(reg, ns, path) + ":" + tag;
    assert image[|reg|] == '/';
    MarkerHasNoSlash(image, i);
    forall k | |reg| < k < i ensures image[k] != ':' {
      if image[k] == ':' {
        ColonPlace(reg, ns, path, tag, k);
      }
    }
  }

  lemma OnlyRegistry(reg: string, name: string, hex: string, t: string)
    requires '/' !in reg && '.' in reg && '/' !in name && IsHex(hex)
    ensures Registry(ArtifactID(Identity(reg + "/" + name, hex), t)) == Ok(reg)
  {
    BeforeLastSlashOf(reg, name, hex, t);
    SplitPlain(reg, '/');
    NoChar(reg, '.');
  }

  lemma DockerHubCut(bare: string) returns (name: string)
    requires '/' !in bare
    ensures '/' !in name && CutTag("docker.io/" + bare).0 == "docker.io" + "/" + name
  {
    var full := "docker.io/" + bare;
    var j := LastIndex(full, ":");
    if j != -1 {
      CharAt(full, ':', j);
      assert full[..10] == "docker.io/" && j >= 10;
      name := bare[..j - 10];
      assert full[..j] == "docker.io/" + name;
    } else {
      name := bare;
    }
  }

  /** A text without a slash becomes a Docker Hub name. */
  lemma DockerHubOnly(bare: string, t: string, pre: string, hex: string)
    requires '/' !in bare && IsHex(hex)
    ensures Registry(ArtifactID(WithDigest(CutTag("docker.io/" + bare).0, pre + "sha256:" + hex), t)) == Ok("docker.io")
  {
    var name := DockerHubCut(bare);
    ImageIdDigest(pre, hex, "docker.io" + "/" + name);
    OnlyRegistry("docker.io", name, hex, t);
  }

  /** For every reference registry/namespace/path:tag and every image ID that ends in a digest: the
      accessors give back exactly the parts if and only if the reference is in the domain. */
  lemma RoundTripIffInDomain(reg: string, ns: string, path: string, tag: string, pre: string, hex: string)
    requires Parts(reg, ns, path) && IsTag(tag) && IsHex(hex)
    ensures Faithful(Parsed(Repo(reg, ns, path) + ":" + tag, pre + "sha256:" + hex), reg, ns, path, hex, tag)
            <==> InDomain(reg, ns, path, tag)
  {
    var repo, imageID := Repo(reg, ns, path), pre + "sha256:" + hex;
    if LastIndex(repo + ":" + tag, "sha256:") != -1 {
      MarkerBreaks(reg, ns, path, tag, pre, hex);
    } else {
      ParseTagged(repo, tag, imageID);
      RegistryOfRepo(reg, ns, path);
      if '.' in reg {
        ImageIdDigest(pre, hex, repo);
        DigestOf(repo, hex, tag);
        FrontOf(reg, ns, path, hex, tag);
        RepositoryOf(reg, ns, path, hex, tag);
        LastPartEscaped(path);
      } else {
        WithoutRegistry(reg, ns + "/" + path, tag, pre, hex);
      }
    }
  }

  /** The repository of a reference with a path of two segments, as Harbor is asked for it. */
  lemma TwoSegmentsEscaped(
    reg: string, ns: string, a: string, b: string, tag: string, pre: string, hex: string)
    requires Parts(reg, ns, a + "/" + b) && IsTag(tag) && IsHex(hex)
    requires '.' in reg && !Contains(reg, "docker.io")
    requires LastIndex(Repo(reg, ns, a + "/" + b) + ":" + tag, "sha256:") == -1
    ensures var r := Parsed(Repo(reg, ns, a + "/" + b) + ":" + tag, pre + "sha256:" + hex);
      r.Ok? && Repository(r.value) == Ok(PathEscape(a) + "%2F" + PathEscape(b))
  {
    RoundTripIffInDomain(reg, ns, a + "/" + b, tag, pre, hex);
    EscapeSlash(a, b);
  }

  lemma WithoutRegistry(ns: string, path: string, tag: string, pre: string, hex: string)
    requires '/' !in ns && IsHex(hex)
    ensures Registry(ArtifactID(WithDigest(Repo("docker.io", ns, path), pre + "sha256:" + hex), tag)) == Ok("docker.io")
  {
    ImageIdDigest(pre, hex, Repo("docker.io", ns, path));
    LastPartOf(path);
    var more := CutLastPart("docker.io", ns, path);
    BeforeLastSlashOf("docker.io" + "/" + ns + more, LastPart(path), hex, tag);
    TwoSegments("docker.io", ns, more);
    NoChar("docker.io", '.');
  }

  // ---- The digest form and the form without a tag ----

  /** The digest form is cut where the "@" of the image is, whatever was put in front. */
  lemma ParseDigestForm(repo: string, digest: string, imageID: string)
    requires '@' !in repo && IsHex(digest)
    ensures |repo| <= |WithRegistry(repo)|
    ensures var cut := CutTag(WithRegistry(repo)[..|repo|]);
      Parsed(repo + "@sha256:" + digest, imageID) == Ok(ArtifactID(WithDigest(cut.0, imageID), cut.1))
  {
    var image := Identity(repo, digest);
    assert repo + "@sha256:" + digest == image == (repo + "@") + "sha256:" + digest;
    LastMarker(repo + "@", "sha256:", digest);
    assert WithoutDigest(image) == repo + "@";
    RegistryIgnoresSuffix(repo, "@");
    AtOf(repo, digest);
    assert (WithRegistry(repo) + "@")[..|repo|] == WithRegistry(repo)[..|repo|];
  }

  /** An image ID without a digest leaves no identity: only the tag of the image is kept. */
  lemma NoDigestNoIdentity(repo: string, tag: string, imageID: string)
    requires '@' !in repo && IsTag(tag) && LastIndex(repo + ":" + tag, "sha256:") == -1
    requires LastIndex(imageID, "sha256:") == -1
    ensures var r := Parsed(repo + ":" + tag, imageID);
      && r == Ok(ArtifactID("", tag))
      && Registry(r.value) == Ok("") && Namespace(r.value) == Ok("") && Repository(r.value) == Ok("")
      && Digest(r.value) == ""
  {
    ParseTagged(repo, tag, imageID);
  }

  /** An image that is a digest only is identified by its image ID. */
  lemma BareDigest(hex: string, imageID: string)
    requires IsHex(hex)
    ensures Parsed("sha256:" + hex, imageID) == Ok(ArtifactID(imageID, ""))
  {
    LastMarker("", "sha256:", hex);
    assert "" + "sha256:" + hex == "sha256:" + hex;
  }

  /** The parser panics exactly if the last "@" comes after the last "sha256:" and, where the registry is
      omitted, also after the ten characters that "docker.io/" adds. */
  lemma PanicsIffAtBeyond(image: string, imageID: string)
    ensures var i, at := LastIndex(image, "sha256:"), LastIndex(image, "@");
      Parsed(image, imageID).Err? <==>
      i > 0 && at > (if WithRegistry(image[..i]) == image[..i] then i else i + 10)
  {
    var i, at := LastIndex(image, "sha256:"), LastIndex(image, "@");
    if i == -1 {
      assert |WithRegistry(image)| >= |image|;
    } else if i > 0 {
      assert |WithRegistry(image[..i])| == if WithRegistry(image[..i]) == image[..i] then i else i + 10;
    }
  }

  /** For every repository text: its digest form is parsed to the same identity as its tag form if and
      only if it names its registry and holds no colon, so neither an omitted registry nor a port. */
  lemma DigestFormAgreesIff(repo: string, tag: string, digest: string, pre: string, hex: string)
    requires repo != "" && '@' !in repo && IsTag(tag) && IsHex(digest) && IsHex(hex)
    requires LastIndex(repo + ":" + tag, "sha256:") == -1
    ensures var r1 := Parsed(repo + ":" + tag, pre + "sha256:" + hex);
            var r2 := Parsed(repo + "@sha256:" + digest, pre + "sha256:" + hex);
      && r1.Ok? && r2.Ok?
      && (r1.value.artifactID == r2.value.artifactID <==> WithRegistry(repo) == repo && ':' !in repo)
  {
    var imageID, full := pre + "sha256:" + hex, WithRegistry(repo);
    ParseTagged(repo, tag, imageID);
    ParseDigestForm(repo, digest, imageID);
    var cut := full[..|repo|];
    CutTagNone(cut);
    ImageIdDigest(pre, hex, full);
    ImageIdDigest(pre, hex, CutTag(cut).0);
    assert |CutTag(cut).0| <= |cut| == |repo|;
    if full == repo {
      assert cut == repo;
    } else {
      assert |full| > |repo|;
      assert |Identity(CutTag(cut).0, hex)| < |Identity(full, hex)|;
    }
  }

  /** For every repository text without a tag: the identity is that of the repository if and only if
      the text holds no colon; a registry port is taken for the tag. */
  lemma UntaggedKeptIff(repo: string, pre: string, hex: string)
    requires '@' !in repo && IsHex(hex) && LastIndex(repo, "sha256:") == -1
    ensures var r := Parsed(repo, pre + "sha256:" + hex);
      r.Ok? && (r.value.artifactID == Identity(WithRegistry(repo), hex) <==> ':' !in repo)
  {
    NoChar(repo, '@');
    NoChar(WithRegistry(repo), ':');
    CutTagNone(WithRegistry(repo));
    ImageIdDigest(pre, hex, CutTag(WithRegistry(repo)).0);
    assert ':' in WithRegistry(repo) <==> ':' in repo;
  }

  // ---- Spellings of a Docker Hub image ----

  lemma PlainName(name: string, tag: string, hex: string, pre: string)
    requires name != "" && '/' !in name && '@' !in name && ':' !in name && IsTag(tag) && IsHex(hex)
    requires LastIndex(name + ":" + tag, "sha256:") == -1
    ensures Parsed(name + ":" + tag, pre + "sha256:" + hex) == Ok(ArtifactID(Identity("docker.io/" + name, hex), tag))
  {
    ParseTagged(name, tag, pre + "sha256:" + hex);
    NoChar(name, '/');
    ImageIdDigest(pre, hex, "docker.io/" + name);
  }

  /** What the accessors show of a Docker Hub image in the library namespace. */
  predicate Official(a: ArtifactID, name: string, tag: string, hex: string) {
    && Registry(a) == Ok("docker.io") && Namespace(a) == Ok("library") && Repository(a) == Ok(name)
    && Digest(a) == "sha256:" + hex && Tag(a) == tag
  }

  /** A front that ends in a slash and holds no colon brings no digest marker with it. */
  lemma NoMarkerInFront(front: string, s: string)
    requires front != "" && front[|front| - 1] == '/' && ':' !in front && LastIndex(s, "sha256:") == -1
    ensures LastIndex(front + s, "sha256:") == -1
  {
    var whole := front + s;
    forall i ensures !OccursAt(whole, "sha256:", i) {
      if OccursAt(whole, "sha256:", i) {
        MarkerColon(whole, "sha256:", i);
        MarkerHasNoSlash(whole, i);
        assert forall k :: 0 <= k < |front| ==> whole[k] == front[k] && front[k] in front;
        assert i + 6 >= |front| && i >= |front|;
        assert whole[i..i + 7] == s[i - |front|..i - |front| + 7];
        assert OccursAt(s, "sha256:", i - |front|);
      }
    }
  }

  lemma FrontOfTagged(front: string, name: string, tag: string)
    requires front != "" && front[|front| - 1] == '/' && ':' !in front
    requires LastIndex(name + ":" + tag, "sha256:") == -1
    ensures LastIndex(front + name + ":" + tag, "sha256:") == -1
  {
    NoMarkerInFront(front, name + ":" + tag);
    assert front + (name + ":" + tag) == front + name + ":" + tag;
  }

  /** The three spellings of an official image have the same registry, namespace, repository, digest and
      tag; the text of the first identity differs from that of the other two. */
  lemma SpellingsAgree(name: string, tag: string, pre: string, hex: string)
    requires name != "" && '/' !in name && '@' !in name && ':' !in name && IsTag(tag) && IsHex(hex)
    requires LastIndex(name + ":" + tag, "sha256:") == -1
    ensures var id := pre + "sha256:" + hex;
            var r1, r2, r3 := Parsed(name + ":" + tag, id), Parsed("library/" + name + ":" + tag, id),
                              Parsed("docker.io/library/" + name + ":" + tag, id);
      && r1.Ok? && r2.Ok? && r3 == r2 && r1.value.artifactID != r2.value.artifactID
      && Official(r1.value, name, tag, hex) && Official(r2.value, name, tag, hex)
  {
    PlainName(name, tag, hex, pre);
    ShortIdentity(name, tag, hex);
    LibraryOfficial(name, tag, pre, hex);
    LongerIdentity(Repo("docker.io", "library", name), "docker.io/" + name, hex);
  }

  lemma LibraryOfficial(name: string, tag: string, pre: string, hex: string)
    requires name != "" && '/' !in name && '@' !in name && ':' !in name && IsTag(tag) && IsHex(hex)
    requires LastIndex(name + ":" + tag, "sha256:") == -1
    ensures var a := ArtifactID(Identity(Repo("docker.io", "library", name), hex), tag);
      && Parsed("library/" + name + ":" + tag, pre + "sha256:" + hex) == Ok(a)
      && Parsed("docker.io/library/" + name + ":" + tag, pre + "sha256:" + hex) == Ok(a)
      && Official(a, name, tag, hex)
  {
    FrontOfTagged("library/", name, tag);
    FrontOfTagged("docker.io/library/", name, tag);
    LibrarySpellings(name, tag, pre, hex);
    LongIdentity(name, tag, hex);
  }

  lemma LibrarySpellings(name: string, tag: string, pre: string, hex: string)
    requires '@' !in name && IsTag(tag) && IsHex(hex)
    requires LastIndex("library/" + name + ":" + tag, "sha256:") == -1
    requires LastIndex("docker.io/library/" + name + ":" + tag, "sha256:") == -1
    ensures var a := Ok(ArtifactID(Identity(Repo("docker.io", "library", name), hex), tag));
      && Parsed("library/" + name + ":" + tag, pre + "sha256:" + hex) == a
      && Parsed("docker.io/library/" + name + ":" + tag, pre + "sha256:" + hex) == a
  {
    var id := pre + "sha256:" + hex;
    ParseTagged("library/" + name, tag, id);
    ParseTagged("docker.io/library/" + name, tag, id);
    Spelled(name);
    LibraryName(name);
    ImageIdDigest(pre, hex, Repo("docker.io", "library", name));
  }

  lemma LibraryName(name: string)
    ensures WithRegistry("library" + "/" + name) == "docker.io/" + ("library" + "/" + name)
    ensures WithRegistry("docker.io" + "/" + ("library/" + name)) == "docker.io" + "/" + ("library/" + name)
  {
    WithRegistrySlash("library", name);
    WithRegistrySlash("docker.io", "library/" + name);
    HubIsHub();
  }

  lemma Spelled(name: string)
    ensures "library/" + name == "library" + "/" + name
    ensures "docker.io/library/" + name == "docker.io" + "/" + ("library/" + name)
    ensures Repo("docker.io", "library", name) == "docker.io/" + ("library" + "/" + name)
    ensures Repo("docker.io", "library", name) == "docker.io" + "/" + ("library/" + name)
  {
    assert "docker.io" + "/" == "docker.io/" && "docker.io/" + "library" + "/" == "docker.io/library/";
  }

  lemma HubIsHub()
    ensures Contains("docker.io", "docker.io") && '.' in "docker.io"
  {
    assert OccursAt("docker.io", "docker.io", 0);
    assert "docker.io"[6] == '.';
  }

  lemma LongerIdentity(a: string, b: string, hex: string)
    requires |a| > |b|
    ensures Identity(a, hex) != Identity(b, hex)
  {
    assert |Identity(a, hex)| > |Identity(b, hex)|;
  }

  lemma LongIdentity(name: string, tag: string, hex: string)
    requires name != "" && '/' !in name && '@' !in name && ':' !in name && IsHex(hex)
    ensures Official(ArtifactID(Identity(Repo("docker.io", "library", name), hex), tag), name, tag, hex)
  {
    HubIsHub();
    DigestOf(Repo("docker.io", "library", name), hex, tag);
    FrontOf("docker.io", "library", name, hex, tag);
    RepositoryOf("docker.io", "library", name, hex, tag);
    LastPartOf(name);
  }

  /** An identity without a namespace: the accessors fill in the default one. */
  lemma ShortIdentity(name: string, tag: string, hex: string)
    requires '/' !in name && IsHex(hex)
    ensures Official(ArtifactID(Identity("docker.io/" + name, hex), tag), name, tag, hex)
  {
    ShortAt(name, tag, hex);
    HubSlash(name);
  }

  lemma HubSlash(name: string)
    ensures "docker.io/" + name == "docker.io" + "/" + name
  {
  }

  lemma ShortAt(name: string, tag: string, hex: string)
    requires '/' !in name && IsHex(hex)
    ensures Official(ArtifactID(Identity("docker.io" + "/" + name, hex), tag), name, tag, hex)
  {
    ShortFront(name, hex, tag);
    DigestOf("docker.io" + "/" + name, hex, tag);
    ShortRepository(name, hex, tag);
  }

  lemma ShortFront(name: string, hex: string, tag: string)
    requires '/' !in name && IsHex(hex)
    ensures var a := ArtifactID(Identity("docker.io" + "/" + name, hex), tag);
      Registry(a) == Ok("docker.io") && Namespace(a) == Ok("library")
  {
    HubIsHub();
    NoNamespace("docker.io", name, hex, tag);
  }

  lemma NoNamespace(reg: string, name: string, hex: string, tag: string)
    requires '/' !in reg && '.' in reg && '/' !in name && IsHex(hex)
    ensures var a := ArtifactID(Identity(reg + "/" + name, hex), tag);
      Registry(a) == Ok(reg) && Namespace(a) == Ok("library")
  {
    NoChar(reg, '.');
    BeforeLastSlashOf(reg, name, hex, tag);
    SplitPlain(reg, '/');
  }

  lemma ShortRepository(name: string, hex: string, tag: string)
    requires '/' !in name && IsHex(hex)
    ensures Repository(ArtifactID(Identity("docker.io" + "/" + name, hex), tag)) == Ok(name)
  {
    var s, rest := Identity("docker.io" + "/" + name, hex), name + ("@sha256:" + hex);
    HubIsHub();
    LastPartSlice("docker.io", name, hex);
    assert s == "docker.io" + ['/'] + rest;
    FirstChar("docker.io", '/', rest);
    assert s[..9] == "docker.io";
  }
}
