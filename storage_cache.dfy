/**
 * src/lib/supabase/cache.ts: `getPublicStorageUrl`, the public URL of an
 * object in Supabase storage.  The base is `NEXT_PUBLIC_SUPABASE_URL`, ''
 * when unset; `readStorageJSON` and `readLocalJSON` are fetch and file I/O
 * and are not part of this model.
 */
module StorageCache {
  import opened Text

  const PublicPrefix: string := "/storage/v1/object/public/"

  /** `base.replace(/\/$/, '')`: one '/' at the very end goes. */
  function DropTrailingSlash(base: string): (r: string)
    ensures r <= base && |base| - 1 <= |r|
    ensures EndsWith(base, "/") ==> r == base[..|base| - 1]
    ensures !EndsWith(base, "/") ==> r == base
  {
    if |base| > 0 && base[|base| - 1] == '/' then base[..|base| - 1] else base
  }

  /** `path.replace(/^\/+/, '')`: every leading '/' goes. */
  function DropLeadingSlashes(path: string): (r: string)
    ensures |r| <= |path|
  {
    if |path| > 0 && path[0] == '/' then DropLeadingSlashes(path[1..]) else path
  }

  /** `getPublicStorageUrl(path)`; a missing base or path is ''. */
  function PublicStorageUrl(base: Option<string>, path: Option<string>): string
  {
    var cleanBase := DropTrailingSlash(if base.Some? then base.value else "");
    var cleanPath := DropLeadingSlashes(if path.Some? then path.value else "");
    cleanBase + PublicPrefix + cleanPath
  }

  /**
   * The cleaned path is what follows the leading run of '/': a suffix of
   * the path, preceded only by '/', and not starting with one.
   */
  lemma {:induction false} LeadingSlashesGone(path: string)
    ensures var r := DropLeadingSlashes(path);
      && |r| <= |path| && r == path[|path| - |r|..]
      && (forall k :: 0 <= k < |path| - |r| ==> path[k] == '/')
      && (r == [] || r[0] != '/')
    decreases |path|
  {
    if |path| > 0 && path[0] == '/' {
      LeadingSlashesGone(path[1..]);
      var r := DropLeadingSlashes(path[1..]);
      assert path[1..][|path| - 1 - |r|..] == path[|path| - |r|..];
      forall k | 0 <= k < |path| - |r| ensures path[k] == '/' {
        if k > 0 {
          assert path[1..][k - 1] == path[k];
        }
      }
    }
  }

  /** Cleaning a cleaned path changes nothing. */
  lemma CleanPathIdempotent(path: string)
    ensures DropLeadingSlashes(DropLeadingSlashes(path)) == DropLeadingSlashes(path)
  {
    LeadingSlashesGone(path);
  }

  /**
   * The URL is the cleaned base, the public-object prefix and the cleaned
   * path; at most one '/' is taken from the base, and the part after the
   * prefix never starts with '/'.
   */
  lemma UrlShape(base: string, path: string)
    ensures var u := PublicStorageUrl(Some(base), Some(path));
      var b := DropTrailingSlash(base);
      var p := DropLeadingSlashes(path);
      && u == b + PublicPrefix + p
      && b <= base && |b| >= |base| - 1
      && (p == [] || p[0] != '/')
      && p == path[|path| - |p|..]
  {
    LeadingSlashesGone(path);
  }

  /** Only one trailing '/' of the base goes: 'https://x//' keeps one. */
  lemma OneSlashOnly()
    ensures PublicStorageUrl(Some("h//"), Some("a")) == "h/" + PublicPrefix + "a"
  {
    assert DropLeadingSlashes("a") == "a";
  }

  /** A missing base or path is the empty string. */
  lemma MissingIsEmpty(path: Option<string>)
    ensures PublicStorageUrl(None, path) == PublicStorageUrl(Some(""), path)
    ensures PublicStorageUrl(None, None) == PublicPrefix
  {
  }
}
