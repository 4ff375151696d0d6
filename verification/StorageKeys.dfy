/**
 How storage keys name files (apps/api/src/media/media.service.ts). An image record stores a key without
 an extension and owns four files; a document record stores the name of its only file.
 */
module StorageKeys {

  type Key = string

  predicate EndsWith(s: string, t: string) {
    |t| <= |s| && s[|s| - |t|..] == t
  }

  function ImageFiles(key: Key): set<Key> {
    {key + "-original.webp", key + "-thumbnail.webp", key + "-medium.webp", key + "-large.webp"}
  }

  /** The files that a record with this storage key lives on. */
  function FilesOf(key: Key): set<Key> {
    if EndsWith(key, ".pdf") then {key} else ImageFiles(key)
  }

  /** The keys that `enqueueCleanup` hands to the queue for a dead storage key. */
  function CleanupKeys(key: Key): set<Key> {
    ImageFiles(key) + (if EndsWith(key, ".pdf") then {key} else {})
  }

  /** The prefix of one upload attempt; `stamp` is the clock reading and `checksum` a hexadecimal digest. */
  function Prefix(tenant: string, folder: string, stamp: string, checksum: string): Key
    requires |checksum| >= 8
  {
    "tenants/" + tenant + "/" + folder + "/" + stamp + "-" + checksum[..8]
  }

  /** Everything the service can ever write or delete on account of one prefix. */
  function Reach(prefix: Key): set<Key> {
    CleanupKeys(prefix) + CleanupKeys(prefix + ".pdf")
  }

  ghost function ReachAll(used: set<Key>): (r: set<Key>)
    ensures forall k :: k in r <==> exists p :: p in used && k in Reach(p)
  {
    set p, k | p in used && k in Reach(p) :: k
  }

  ghost predicate IsHex(s: string) {
    forall i :: 0 <= i < |s| ==> '0' <= s[i] <= '9' || 'a' <= s[i] <= 'f'
  }

  lemma LastFour(s: string)
    requires |s| >= 4 && EndsWith(s, ".pdf")
    ensures s[|s| - 4] == '.' && s[|s| - 1] == 'f'
  {
    assert s[|s| - 4] == s[|s| - 4..][0] && s[|s| - 1] == s[|s| - 4..][3];
  }

  lemma PrefixIsNoDocument(tenant: string, folder: string, stamp: string, checksum: string)
    requires |checksum| >= 8 && IsHex(checksum)
    ensures !EndsWith(Prefix(tenant, folder, stamp, checksum), ".pdf")
  {
    var p := Prefix(tenant, folder, stamp, checksum);
    assert p[|p| - 4] == checksum[4];
    if EndsWith(p, ".pdf") { LastFour(p); }
  }

  /** Two equal keys with endings of these forms have the same ending, and so the same stem. */
  lemma SameStem(k: Key, a: string, l: Key, b: string)
    requires |a| >= 7 && |b| >= 7 && a[|a| - 7] != b[|b| - 7]
    ensures k + a != l + b
  {
    var x, y := k + a, l + b;
    assert x[|x| - 7] == a[|a| - 7] && y[|y| - 7] == b[|b| - 7];
  }

  lemma Cancel(k: Key, l: Key, a: string)
    requires k + a == l + a
    ensures k == l
  {
    assert (k + a)[..|k|] == k && (l + a)[..|l|] == l;
  }

  lemma EndingOf(k: Key, f: Key) returns (a: string)
    requires f in ImageFiles(k)
    ensures f == k + a && a in ["-original.webp", "-thumbnail.webp", "-medium.webp", "-large.webp"]
  {
    a := if f == k + "-original.webp" then "-original.webp" else if f == k + "-thumbnail.webp" then "-thumbnail.webp"
         else if f == k + "-medium.webp" then "-medium.webp" else "-large.webp";
  }

  lemma EndingsDiffer(a: string, b: string)
    requires a in ["-original.webp", "-thumbnail.webp", "-medium.webp", "-large.webp"]
    requires b in ["-original.webp", "-thumbnail.webp", "-medium.webp", "-large.webp"]
    ensures |a| >= 7 && |b| >= 7 && (a != b ==> a[|a| - 7] != b[|b| - 7])
  {
  }

  lemma ImageFilesDisjoint(k: Key, l: Key)
    requires k != l
    ensures ImageFiles(k) !! ImageFiles(l)
  {
    forall f | f in ImageFiles(k) ensures f !in ImageFiles(l) {
      hide ImageFiles;
      if f in ImageFiles(l) {
        var a := EndingOf(k, f);
        var b := EndingOf(l, f);
        EndingsDiffer(a, b);
        if a == b { Cancel(k, l, a); } else { SameStem(k, a, l, b); }
        assert false;
      }
    }
  }

  lemma ImageIsNoDocument(k: Key, f: Key)
    requires f in ImageFiles(k)
    ensures !EndsWith(f, ".pdf")
  {
    assert f[|f| - 1] == 'p';
    if EndsWith(f, ".pdf") { LastFour(f); }
  }

  /** Cleaning up one storage key never touches a file of another, whatever the two strings are. */
  lemma CleanupMissesOthers(dead: Key, key: Key)
    requires dead != key
    ensures CleanupKeys(dead) !! FilesOf(key)
  {
    ImageFilesDisjoint(dead, key);
    forall f | f in ImageFiles(dead) { ImageIsNoDocument(dead, f); }
    forall f | f in ImageFiles(key) { ImageIsNoDocument(key, f); }
  }

  lemma DocumentName(p: Key)
    ensures EndsWith(p + ".pdf", ".pdf")
  {
    assert (p + ".pdf")[|p|..] == ".pdf";
  }

  lemma FilesWithinCleanup(key: Key)
    ensures FilesOf(key) <= CleanupKeys(key)
  {
  }

  /** Prefixes that are not document names never share a key, so a fresh prefix is free of old jobs. */
  lemma ReachDisjoint(p: Key, q: Key)
    requires p != q && !EndsWith(p, ".pdf") && !EndsWith(q, ".pdf")
    ensures Reach(p) !! Reach(q)
  {
    DocumentName(p);
    DocumentName(q);
    if p + ".pdf" == q + ".pdf" { Cancel(p, q, ".pdf"); }
    ImageFilesDisjoint(p, q);
    ImageFilesDisjoint(p + ".pdf", q + ".pdf");
    ImageFilesDisjoint(p, q + ".pdf");
    ImageFilesDisjoint(p + ".pdf", q);
    forall k, f | k in {p, q, p + ".pdf", q + ".pdf"} && f in ImageFiles(k) { ImageIsNoDocument(k, f); }
  }

  lemma FreshReach(p: Key, used: set<Key>)
    requires p !in used && !EndsWith(p, ".pdf") && forall q :: q in used ==> !EndsWith(q, ".pdf")
    ensures Reach(p) !! ReachAll(used)
  {
    forall q | q in used ensures Reach(p) !! Reach(q) {
      ReachDisjoint(p, q);
    }
  }
}
