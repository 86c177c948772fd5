/** On which image references the accessors give back what the reference was made of. */
module ArtifactRoundTrip {
  import opened Wrappers
  import opened Sequences
  import opened Strings
  import opened Artifact

  // ---- Searching in texts that are put together ----

  lemma CharAt(s: string, c: char, i: int)
    ensures OccursAt(s, [c], i) <==> 0 <= i < |s| && s[i] == c
  {
  }

  lemma NoChar(s: string, c: char)
    ensures Contains(s, [c]) <==> c in s
    ensures c !in s ==> Index(s, [c]) == -1 && LastIndex(s, [c]) == -1
  {
    if c in s {
      var i :| 0 <= i < |s| && s[i] == c;
      CharAt(s, c, i);
    }
    forall i ensures OccursAt(s, [c], i) ==> c in s {
      CharAt(s, c, i);
    }
  }

  lemma FirstChar(a: string, c: char, b: string)
    requires c !in a
    ensures Index(a + [c] + b, [c]) == |a|
  {
    var s := a + [c] + b;
    CharAt(s, c, |a|);
    CharAt(s, c, Index(s, [c]));
  }

  lemma LastChar(a: string, c: char, b: string)
    requires c !in b
    ensures LastIndex(a + [c] + b, [c]) == |a|
  {
    var s := a + [c] + b;
    CharAt(s, c, |a|);
    CharAt(s, c, LastIndex(s, [c]));
  }

  lemma MarkerColon(s: string, m: string, i: int)
    requires m != "" && m[|m| - 1] == ':' && OccursAt(s, m, i)
    ensures s[i + |m| - 1] == ':'
  {
    assert s[i..i + |m|][|m| - 1] == ':';
  }

  /** A marker that ends in a colon occurs last where no colon follows it. */
  lemma LastMarker(a: string, m: string, b: string)
    requires m != "" && m[|m| - 1] == ':' && ':' !in b
    ensures LastIndex(a + m + b, m) == |a|
  {
    var s := a + m + b;
    assert OccursAt(s, m, |a|);
    MarkerColon(s, m, LastIndex(s, m));
  }

  // ---- The identity that a repository and a digest make ----

  predicate IsHex(h: string) {
    forall c :: c in h ==> '0' <= c <= '9' || 'a' <= c <= 'f'
  }

  function Identity(repo: string, hex: string): string {
    repo + "@" + "sha256:" + hex
  }

  lemma ImageIdDigest(pre: string, hex: string, repo: string)
    requires IsHex(hex)
    ensures WithDigest(repo, pre + "sha256:" + hex) == Identity(repo, hex)
  {
    LastMarker(pre, "sha256:", hex);
    var id := pre + "sha256:" + hex;
    assert id[|pre|..] == "sha256:" + hex;
  }

  lemma DigestOf(repo: string, hex: string, tag: string)
    requires IsHex(hex)
    ensures Digest(ArtifactID(Identity(repo, hex), tag)) == "sha256:" + hex
  {
    var s := Identity(repo, hex);
    assert s == repo + "@sha256:" + hex;
    LastMarker(repo, "@sha256:", hex);
  }

  /** What the accessors see in an identity: everything before the "@" belongs to the repository. */
  lemma AtOf(repo: string, hex: string)
    requires IsHex(hex)
    ensures LastIndex(Identity(repo, hex), "@") == |repo|
    ensures '/' !in "@sha256:" + hex
  {
    assert '@' !in "sha256:" + hex;
    assert Identity(repo, hex) == repo + ['@'] + ("sha256:" + hex);
    LastChar(repo, '@', "sha256:" + hex);
  }

  lemma LastSlashOf(front: string, last: string, hex: string)
    requires IsHex(hex) && '/' !in last
    ensures LastIndex(Identity(front + "/" + last, hex), "/") == |front|
  {
    AtOf(front, hex);
    var tail := last + ("@sha256:" + hex);
    assert Identity(front + "/" + last, hex) == front + ['/'] + tail;
    LastChar(front, '/', tail);
  }

  // ---- References: registry/namespace/path ----

  /** The parts of a reference, none empty, with the separators where they belong. */
  predicate Parts(reg: string, ns: string, path: string) {
    && reg != "" && '/' !in reg && '@' !in reg
    && ns != "" && '/' !in ns && ':' !in ns && '@' !in ns
    && path != "" && ':' !in path && '@' !in path
  }

  predicate IsTag(tag: string) {
    tag != "" && '/' !in tag && ':' !in tag && '@' !in tag
  }

  function Repo(reg: string, ns: string, path: string): string {
    reg + "/" + ns + "/" + path
  }

  /** What follows the last slash. */
  function LastPart(path: string): string {
    path[LastIndex(path, "/") + 1..]
  }

  lemma LastPartOf(path: string)
    ensures '/' !in LastPart(path)
    ensures LastPart(path) == path || (exists front :: path == front + "/" + LastPart(path))
    ensures LastPart(path) == path <==> '/' !in path
  {
    var i := LastIndex(path, "/");
    forall k | 0 <= k < |LastPart(path)| ensures LastPart(path)[k] != '/' {
      CharAt(path, '/', i + 1 + k);
    }
    NoChar(path, '/');
    if i != -1 {
      CharAt(path, '/', i);
      assert path == path[..i] + "/" + LastPart(path);
    }
  }

  lemma BeforeLastSlashOf(front: string, last: string, hex: string, tag: string)
    requires IsHex(hex) && '/' !in last
    ensures BeforeLastSlash(ArtifactID(Identity(front + "/" + last, hex), tag)) == Ok(Split(front, '/'))
  {
    LastSlashOf(front, last, hex);
    assert Identity(front + "/" + last, hex)[..|front|] == front;
  }

  lemma FirstSegment(head: string, more: string)
    requires '/' !in head && (more == "" || more[0] == '/')
    ensures Split(head + more, '/') == [head] + (if more == "" then [] else Split(more[1..], '/'))
  {
    if more == "" {
      SplitPlain(head, '/');
      assert head + more == head;
    } else {
      SplitHead(head, more[1..], '/');
      assert head + more == head + ['/'] + more[1..];
    }
  }

  lemma TwoSegments(reg: string, ns: string, more: string)
    requires '/' !in reg && '/' !in ns && (more == "" || more[0] == '/')
    ensures var parts := Split(reg + "/" + ns + more, '/'); |parts| >= 2 && parts[0] == reg && parts[1] == ns
  {
    var tail := "/" + (ns + more);
    Flatten(reg, ns, more);
    FirstSegment(reg, tail);
    FirstSegment(ns, more);
    assert tail[1..] == ns + more;
  }

  lemma Flatten(a: string, b: string, c: string)
    ensures a + "/" + b + c == a + ("/" + (b + c))
  {
  }

  /** The repository's text up to its last slash. */
  lemma CutLastPart(reg: string, ns: string, path: string) returns (more: string)
    ensures more == "" || more[0] == '/'
    ensures Repo(reg, ns, path) == (reg + "/" + ns + more) + "/" + LastPart(path)
  {
    LastPartOf(path);
    if '/' !in path {
      more := "";
      assert reg + "/" + ns + more == reg + "/" + ns;
    } else {
      var front :| path == front + "/" + LastPart(path);
      more := "/" + front;
      assert reg + "/" + ns + more == reg + "/" + ns + "/" + front;
    }
  }

  /** Registry and namespace of an identity with a namespace. */
  lemma FrontOf(reg: string, ns: string, path: string, hex: string, tag: string)
    requires Parts(reg, ns, path) && IsHex(hex)
    ensures var a := ArtifactID(Identity(Repo(reg, ns, path), hex), tag);
      && Namespace(a) == Ok(ns)
      && Registry(a) == Ok(if '.' in reg then reg else "")
  {
    NoChar(reg, '.');
    LastPartOf(path);
    var more := CutLastPart(reg, ns, path);
    BeforeLastSlashOf(reg + "/" + ns + more, LastPart(path), hex, tag);
    TwoSegments(reg, ns, more);
  }

  lemma FirstSlashOf(reg: string, ns: string, path: string, hex: string)
    requires '/' !in reg
    ensures var s := Identity(Repo(reg, ns, path), hex);
      && s != "" && Index(s, "/") == |reg| && s[..|reg|] == reg && s[|reg| + 1..] == Identity(ns + "/" + path, hex)
  {
    var rest := Identity(ns + "/" + path, hex);
    assert Identity(Repo(reg, ns, path), hex) == reg + ['/'] + rest;
    FirstChar(reg, '/', rest);
  }

  lemma PathOf(ns: string, path: string, hex: string)
    requires '/' !in ns && IsHex(hex)
    ensures var s := Identity(ns + "/" + path, hex);
      Slice(s, Index(s, "/") + 1, LastIndex(s, "@")) == Ok(path)
  {
    var s := Identity(ns + "/" + path, hex);
    AtOf(ns + "/" + path, hex);
    assert s == ns + ['/'] + (path + ("@sha256:" + hex));
    FirstChar(ns, '/', path + ("@sha256:" + hex));
    assert s[|ns| + 1..|ns| + 1 + |path|] == path;
  }

  lemma LastPartSlice(front: string, last: string, hex: string)
    requires '/' !in last && IsHex(hex)
    ensures var s := Identity(front + "/" + last, hex);
      Slice(s, LastIndex(s, "/") + 1, LastIndex(s, "@")) == Ok(last)
  {
    LastSlashOf(front, last, hex);
    AtOf(front + "/" + last, hex);
    assert Identity(front + "/" + last, hex)[|front| + 1..|front| + 1 + |last|] == last;
  }

  lemma RepositoryAtSlash(s: string, front: string, rest: string, tag: string)
    requires s != "" && Index(s, "/") == |front| && s[..|front|] == front && s[|front| + 1..] == rest
    ensures Repository(ArtifactID(s, tag)) == RepositoryIn(s, front, rest)
  {
  }

  lemma RepositoryShape(s: string, front: string, rest: string, last: string, path: string)
    requires Slice(s, LastIndex(s, "/") + 1, LastIndex(s, "@")) == Ok(last)
    requires Slice(rest, Index(rest, "/") + 1, LastIndex(rest, "@")) == Ok(path)
    ensures RepositoryIn(s, front, rest) == Ok(if Contains(front, "docker.io") then last else PathEscape(path))
  {
  }

  lemma LastPartSliced(reg: string, ns: string, path: string, hex: string)
    requires Parts(reg, ns, path) && IsHex(hex)
    ensures var s := Identity(Repo(reg, ns, path), hex);
      Slice(s, LastIndex(s, "/") + 1, LastIndex(s, "@")) == Ok(LastPart(path))
  {
    LastPartOf(path);
    var more := CutLastPart(reg, ns, path);
    LastPartSlice(reg + "/" + ns + more, LastPart(path), hex);
  }

  /** The repository of an identity with a namespace. */
  lemma RepositoryOf(reg: string, ns: string, path: string, hex: string, tag: string)
    requires Parts(reg, ns, path) && IsHex(hex)
    ensures Repository(ArtifactID(Identity(Repo(reg, ns, path), hex), tag)) ==
            Ok(if Contains(reg, "docker.io") then LastPart(path) else PathEscape(path))
  {
    var s, rest := Identity(Repo(reg, ns, path), hex), Identity(ns + "/" + path, hex);
    assert s != "" && Index(s, "/") == |reg| && s[..|reg|] == reg && s[|reg| + 1..] == rest by {
      FirstSlashOf(reg, ns, path, hex);
    }
    assert Slice(s, LastIndex(s, "/") + 1, LastIndex(s, "@")) == Ok(LastPart(path)) by {
      LastPartSliced(reg, ns, path, hex);
    }
    assert Slice(rest, Index(rest, "/") + 1, LastIndex(rest, "@")) == Ok(path) by {
      PathOf(ns, path, hex);
    }
    RepositoryAtSlash(s, reg, rest, tag);
    RepositoryShape(s, reg, rest, LastPart(path), path);
  }

  // ---- Percent encoding (section 2.1 of RFC 3986) ----

  /** Letters, digits and ten signs stand for themselves in a path segment; a slash does not. */
  predicate NeedsNoEscape(c: char) {
    || 'a' <= c <= 'z' || 'A' <= c <= 'Z' || '0' <= c <= '9'
    || c == '-' || c == '_' || c == '.' || c == '~' || c == '$' || c == '&' || c == '+'
    || c == '=' || c == ':' || c == '@'
  }

  lemma KeptIsLiteral(c: char)
    ensures Kept(c) <==> NeedsNoEscape(c)
  {
    var signs := "-_.~$&+=:@";
    assert signs == ['-', '_', '.', '~', '$', '&', '+', '=', ':', '@'];
  }

  function UpperHex(n: int): char
    requires 0 <= n < 16
  {
    if n < 10 then ('0' as int + n) as char else ('A' as int + n - 10) as char
  }

  lemma {:induction false} EscapeAppend(a: string, b: string)
    ensures PathEscape(a + b) == PathEscape(a) + PathEscape(b)
  {
    if a == "" {
      assert a + b == b;
    } else {
      EscapeAppend(a[1..], b);
      assert (a + b)[0] == a[0] && (a + b)[1..] == a[1..] + b;
      Associate(Escaped(a[0]), PathEscape(a[1..]), PathEscape(b));
    }
  }

  /** Byte for byte: those that need no escape stay, every other one becomes a percent sign and its two
      upper-case hexadecimal digits; and the bytes of a text are escaped one by one. */
  lemma EscapeByByte(c: char, rest: string)
    requires IsByte(c)
    ensures PathEscape([c] + rest) ==
      (if NeedsNoEscape(c) then [c] else ['%', UpperHex(c as int / 16), UpperHex(c as int % 16)]) + PathEscape(rest)
    ensures PathEscape("") == ""
  {
    KeptIsLiteral(c);
    assert ([c] + rest)[0] == c && ([c] + rest)[1..] == rest;
    assert c as int / 16 % 16 == c as int / 16;
    HexIsUpper(c as int / 16);
    HexIsUpper(c as int % 16);
  }

  lemma HexIsUpper(n: int)
    requires 0 <= n < 16
    ensures HexDigit(n) == UpperHex(n)
  {
    assert "0123456789ABCDEF" == ['0', '1', '2', '3', '4', '5', '6', '7', '8', '9', 'A', 'B', 'C', 'D', 'E', 'F'];
  }

  /** An escaped text is one path segment. */
  lemma {:induction false} EscapeHasNoSlash(s: string)
    requires forall c :: c in s ==> IsByte(c)
    ensures '/' !in PathEscape(s)
  {
    if s != "" {
      forall c | c in s[1..] ensures IsByte(c) {
        assert c in s;
      }
      EscapeHasNoSlash(s[1..]);
      assert s == [s[0]] + s[1..];
      EscapeByByte(s[0], s[1..]);
    }
  }

  /** A slash inside a repository path comes out as %2F. */
  lemma EscapeSlash(a: string, b: string)
    ensures PathEscape(a + "/" + b) == PathEscape(a) + "%2F" + PathEscape(b)
  {
    EscapeAppend(a + "/", b);
    EscapeAppend(a, "/");
    SlashEscaped();
  }

  lemma SlashEscaped()
    ensures PathEscape("/") == "%2F"
  {
    EscapeByByte('/', "");
    assert ['/'] + "" == "/" && ['%', '2', 'F'] + "" == "%2F";
  }

  lemma {:induction false} EscapeLength(s: string)
    ensures |PathEscape(s)| >= |s|
    ensures PathEscape(s) == s <==> forall c :: c in s ==> NeedsNoEscape(c)
  {
    if s != "" {
      EscapeLength(s[1..]);
      KeptIsLiteral(s[0]);
      assert s == [s[0]] + s[1..];
      assert Kept(s[0]) ==> (PathEscape(s) == s <==> PathEscape(s[1..]) == s[1..]);
    }
  }

  function HexValue(c: char): int {
    if '0' <= c <= '9' then c as int - '0' as int else c as int - 'A' as int + 10
  }

  /** Percent decoding. */
  function Unescape(s: string): string {
    if s == "" then ""
    else if s[0] == '%' && |s| >= 3 && 0 <= HexValue(s[1]) * 16 + HexValue(s[2]) < 256 then
      [(HexValue(s[1]) * 16 + HexValue(s[2])) as char] + Unescape(s[3..])
    else [s[0]] + Unescape(s[1..])
  }

  predicate IsByte(c: char) {
    c as int < 256
  }

  lemma EscapedByte(c: char, rest: string)
    requires IsByte(c)
    ensures Unescape(Escaped(c) + rest) == [c] + Unescape(rest)
  {
    var e := Escaped(c) + rest;
    if Kept(c) {
      assert e[0] == c && e[1..] == rest;
    } else {
      var hi, lo := c as int / 16 % 16, c as int % 16;
      HexOfDigit(hi);
      HexOfDigit(lo);
      assert e[0] == '%' && e[1] == HexDigit(hi) && e[2] == HexDigit(lo) && e[3..] == rest;
      assert hi * 16 + lo == c as int;
    }
  }

  /** Decoding gives back what was encoded, for any bytes: no two repositories share an encoding. */
  lemma {:induction false} UnescapeEscape(s: string)
    requires forall c :: c in s ==> IsByte(c)
    ensures Unescape(PathEscape(s)) == s
  {
    if s != "" {
      forall c | c in s[1..] ensures IsByte(c) {
        assert c in s;
      }
      UnescapeEscape(s[1..]);
      EscapedByte(s[0], PathEscape(s[1..]));
    }
  }

  lemma HexOfDigit(n: int)
    requires 0 <= n < 16
    ensures HexValue(HexDigit(n)) == n
  {
  }
}
