/** Artifact identities: parsing a container's image and image ID, and taking the result apart again. */
module Artifact {
  import opened Wrappers
  import opened Strings

  const PANIC := "slice bounds out of range"
  const INDEX_PANIC := "index out of range"

  datatype ArtifactID = ArtifactID(artifactID: string, tag: string)

  /** s[:i] of Go, which panics for an index outside the string. */
  function Prefix(s: string, i: int): Result<string> {
    if 0 <= i <= |s| then Ok(s[..i]) else Err(PANIC)
  }

  /** s[lo:hi] of Go. */
  function Slice(s: string, lo: int, hi: int): Result<string> {
    if 0 <= lo <= hi <= |s| then Ok(s[lo..hi]) else Err(PANIC)
  }

  /** The image without a trailing "sha256:..." of its digest. */
  function WithoutDigest(image: string): string {
    var i := LastIndex(image, "sha256:");
    if i != -1 then image[..i] else image
  }

  /** The image with "docker.io/" in front when it names no registry. */
  function WithRegistry(repo: string): string {
    if !Contains(repo, "/") then "docker.io/" + repo
    else if !Contains(repo[..Index(repo, "/")], ".") then "docker.io/" + repo
    else repo
  }

  /** The repository and what follows its last colon. */
  function CutTag(repo: string): (string, string) {
    var i := LastIndex(repo, ":");
    if i != -1 then (repo[..i], repo[i + 1..]) else (repo, "")
  }

  /** The repository joined with the digest of the image ID; empty without a digest. */
  function WithDigest(repo: string, imageID: string): string {
    var i := LastIndex(imageID, "sha256:");
    if i != -1 then repo + "@" + imageID[i..] else ""
  }

  function Parsed(image: string, imageID: string): Result<ArtifactID> {
    var bare := WithoutDigest(image);
    if LastIndex(image, "sha256:") != -1 && bare == "" then Ok(ArtifactID(imageID, ""))
    else
      var full := WithRegistry(bare);
      var at := LastIndex(image, "@");
      var cut := if at != -1 then Prefix(full, at) else Ok(full);
      if cut.Err? then Err(cut.error)
      else Ok(ArtifactID(WithDigest(CutTag(cut.value).0, imageID), CutTag(cut.value).1))
  }

  /** ParseArtifactIDFrom. An Err is a panic. */
  method ParseArtifactIDFrom(image: string, imageID: string) returns (r: Result<ArtifactID>)
    ensures r == Parsed(image, imageID)
  {
    var artifactID, tag := "", "";
    var fullRepo := image;
    var i0 := LastIndex(fullRepo, "sha256:");
    if i0 != -1 {
      fullRepo := fullRepo[0..i0];
      if |fullRepo| == 0 {
        return Ok(ArtifactID(imageID, tag));
      }
    }
    assert fullRepo == WithoutDigest(image);
    if !Contains(fullRepo, "/") {
      fullRepo := "docker.io/" + fullRepo;
    } else {
      var namespaceOrRegistry := fullRepo[..Index(fullRepo, "/")];
      if !Contains(namespaceOrRegistry, ".") {
        fullRepo := "docker.io/" + fullRepo;
      }
    }
    assert fullRepo == WithRegistry(WithoutDigest(image));
    var i1 := LastIndex(image, "@");
    if i1 != -1 {
      if i1 > |fullRepo| {
        return Err(PANIC);
      }
      fullRepo := fullRepo[..i1];
    }
    ghost var cut := fullRepo;
    var i2 := LastIndex(fullRepo, ":");
    if i2 != -1 {
      tag := fullRepo[i2 + 1..];
      fullRepo := fullRepo[..i2];
    }
    assert (fullRepo, tag) == CutTag(cut);
    var i3 := LastIndex(imageID, "sha256:");
    if i3 != -1 {
      artifactID := fullRepo + "@" + imageID[i3..];
    }
    r := Ok(ArtifactID(artifactID, tag));
  }

  // ---- Accessors ----

  function Digest(a: ArtifactID): string {
    a.artifactID[LastIndex(a.artifactID, "@sha256:") + 1..]
  }

  function Repository(a: ArtifactID): Result<string> {
    var s := a.artifactID;
    if s == "" then Ok("")
    else
      var slash := Index(s, "/");
      if slash == -1 then Err(PANIC) else RepositoryIn(s, s[..slash], s[slash + 1..])
  }

  /** The repository of an identity, given what stands before and after its first slash. */
  function RepositoryIn(s: string, front: string, rest: string): Result<string> {
    if Contains(front, "docker.io") then Slice(s, LastIndex(s, "/") + 1, LastIndex(s, "@"))
    else
      var path := Slice(rest, Index(rest, "/") + 1, LastIndex(rest, "@"));
      if path.Ok? then Ok(PathEscape(path.value)) else path
  }

  function BeforeLastSlash(a: ArtifactID): Result<seq<string>> {
    var i := LastIndex(a.artifactID, "/");
    if i == -1 then Err(PANIC) else Ok(Split(a.artifactID[..i], '/'))
  }

  function Namespace(a: ArtifactID): Result<string> {
    if a.artifactID == "" then Ok("")
    else
      match BeforeLastSlash(a)
      case Err(e) => Err(e)
      case Ok(segments) =>
        if Contains(segments[0], ".") && |segments| == 1 then Ok("library")
        else if |segments| > 1 then Ok(segments[1])
        else Err(INDEX_PANIC)
  }

  function Registry(a: ArtifactID): Result<string> {
    if a.artifactID == "" then Ok("")
    else
      match BeforeLastSlash(a)
      case Err(e) => Err(e)
      case Ok(segments) => if Contains(segments[0], ".") then Ok(segments[0]) else Ok("")
  }

  function Tag(a: ArtifactID): string {
    a.tag
  }

  // ---- url.PathEscape ----

  /** Bytes that a path segment keeps as they are: the unreserved ones and $ & + = : @. */
  predicate Kept(c: char) {
    'a' <= c <= 'z' || 'A' <= c <= 'Z' || '0' <= c <= '9'
    || c in "-_.~$&+=:@"
  }

  function HexDigit(n: int): char
    requires 0 <= n < 16
  {
    "0123456789ABCDEF"[n]
  }

  function Escaped(c: char): string {
    if Kept(c) then [c] else ['%', HexDigit(c as int / 16 % 16), HexDigit(c as int % 16)]
  }

  function PathEscape(s: string): string {
    if s == "" then "" else Escaped(s[0]) + PathEscape(s[1..])
  }
}
