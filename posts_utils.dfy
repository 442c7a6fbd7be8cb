/**
 * The post loader of lib/posts-utils.tsx: slug derivation, the file path of a
 * post, the record built from its front-matter, the listing of all posts
 * sorted by descending date, and the featured-post filter.
 *
 * The file system and the front-matter parser are inputs: the directory
 * listing is an `Option` (None when the directory cannot be read) and the
 * files are a map from path to the parsed `(front-matter, body)` pair.
 */
module PostsUtils {
  import opened Wrappers
  import opened Strings

  /** A front-matter or record value. Dates are integer timestamps. */
  datatype Value = Str(s: string) | Num(n: int) | Bool(b: bool) | Time(t: int) | Null | Undefined

  type FrontMatter = map<string, Value>

  /** What the front-matter parser yields for one file. */
  datatype Parsed = Parsed(data: FrontMatter, content: string)

  /** The readable files, keyed by path. */
  type Files = map<string, Parsed>

  /** A loaded post: a record whose `date` key holds a timestamp. */
  type Record = r: map<string, Value> | "date" in r && r["date"].Time? witness map["date" := Time(0)]

  datatype LoadError =
    | DirectoryUnreadable     // `fs.readdirSync` throws
    | NotFound(path: string)  // `fs.readFileSync` throws
    | MissingDate(slug: string)  // `data.date.toString()` on undefined or null throws
    | UnparsedDate(slug: string) // a date that is not a timestamp (date parsing is not modelled)

  const PostExtension := ".md"

  function DateOf(r: Record): int
  {
    r["date"].t
  }

  /** JavaScript truthiness of a value. */
  predicate Truthy(v: Value)
  {
    match v
    case Str(s) => s != ""
    case Num(n) => n != 0
    case Bool(b) => b
    case Time(_) => true
    case Null => false
    case Undefined => false
  }

  // ---------------------------------------------------------------------------
  // getPostData

  /** `postIdentifier.replace(".md", "")`: the slug of a directory entry. */
  function Slug(identifier: string): (slug: string)
    ensures !Contains(identifier, PostExtension) ==> slug == identifier
    ensures Contains(identifier, PostExtension) ==> |slug| == |identifier| - |PostExtension|
  {
    ReplaceFirst(identifier, PostExtension, "")
  }

  /** Only the first `.md` is removed, wherever it stands; without one the identifier is the slug. */
  lemma SlugRemovesFirstMd(identifier: string)
    ensures !Contains(identifier, ".md") ==> Slug(identifier) == identifier
    ensures Contains(identifier, ".md") ==>
      exists i :: OccursAt(identifier, ".md", i)
        && (forall j :: 0 <= j < i ==> !OccursAt(identifier, ".md", j))
        && Slug(identifier) == identifier[..i] + identifier[i + 3..]
  {
    var i := IndexOf(identifier, ".md");
    if i >= 0 {
      assert OccursAt(identifier, ".md", i);
    }
  }

  lemma SlugOfDoubleExtension()
    ensures Slug("a.md.md") == "a.md"
  {
    assert OccursAt("a.md.md", ".md", 1);
    assert "a.md.md"[0] == 'a';
  }

  /** Stripping is not suffix-only: an inner `.md` goes first. */
  lemma SlugOfInnerExtension()
    ensures Slug("a.mdx.md") == "ax.md"
  {
    assert OccursAt("a.mdx.md", ".md", 1);
    assert "a.mdx.md"[0] == 'a';
  }

  /** A name `x.md` whose only `.md` is the suffix loses exactly the suffix. */
  lemma SlugOfSuffixed(name: string)
    requires !Contains(name, ".md")
    ensures Slug(name + ".md") == name
  {
    var s := name + ".md";
    assert OccursAt(s, ".md", |name|);
    forall j | 0 <= j < |name|
      ensures !OccursAt(s, ".md", j)
    {
      if j + 3 <= |name| {
        assert name[j..j + 3] == s[j..j + 3];
        ContainsIff(name, ".md");
        assert !OccursAt(name, ".md", j);
      } else {
        assert s[j..j + 3][|name| - j] == '.';
        assert ".md"[1] != '.' && ".md"[2] != '.';
      }
    }
  }

  /** The file read for a slug: `<posts>/<slug>/<slug>.md`. */
  function PostPath(root: string, slug: string): (p: string)
    ensures |p| == |root| + 2 * |slug| + 5
  {
    root + "/" + slug + "/" + slug + PostExtension
  }

  /** Distinct slugs never share a file; the slug can be read back from the path. */
  lemma PostPathInjective(root: string, a: string, b: string)
    requires PostPath(root, a) == PostPath(root, b)
    ensures a == b
  {
    var p := PostPath(root, a);
    assert |a| == |b|;
    assert a == p[|root| + 1..|root| + 1 + |a|];
    assert b == PostPath(root, b)[|root| + 1..|root| + 1 + |b|];
  }

  lemma PostPathShape(root: string, slug: string)
    ensures var p := PostPath(root, slug);
      && p[..|root| + 1] == root + "/"
      && p[|root| + 1..|root| + 1 + |slug|] == slug
      && p[|root| + 1 + |slug|] == '/'
      && p[|root| + 2 + |slug|..|p| - 3] == slug
      && p[|p| - 3..] == ".md"
  {
  }

  /**
   * The record `{ slug, ...data, content, date, isFeatured }`: later keys
   * override earlier ones, so a front-matter `slug` replaces the derived one
   * while `content`, `date` and `isFeatured` always come from the parsed file.
   */
  function Merge(slug: string, data: FrontMatter, content: string, date: int): (r: Record)
    ensures r.Keys == data.Keys + {"slug", "content", "date", "isFeatured"}
    ensures r["content"] == Str(content)
    ensures r["date"] == Time(date)
    ensures r["isFeatured"] == (if "isFeatured" in data then data["isFeatured"] else Undefined)
    ensures r["slug"] == (if "slug" in data then data["slug"] else Str(slug))
    ensures forall k :: k in data && k != "content" && k != "date" && k != "isFeatured" ==> r[k] == data[k]
  {
    var featured := if "isFeatured" in data then data["isFeatured"] else Undefined;
    map["slug" := Str(slug)] + data + map["content" := Str(content), "date" := Time(date), "isFeatured" := featured]
  }

  /** `getPostData(identifier)`. */
  function LoadPost(root: string, files: Files, identifier: string): (r: Result<Record, LoadError>)
    ensures var path := PostPath(root, Slug(identifier));
      path !in files <==> r == Err(NotFound(path))
  {
    var slug := Slug(identifier);
    var path := PostPath(root, slug);
    if path !in files then Err(NotFound(path))
    else
      var Parsed(data, content) := files[path];
      if "date" !in data || data["date"] == Null || data["date"] == Undefined then Err(MissingDate(slug))
      else if !data["date"].Time? then Err(UnparsedDate(slug))
      else Ok(Merge(slug, data, content, data["date"].t))
  }

  /** A post loads if and only if its file exists and its front-matter date is a timestamp. */
  lemma LoadPostOutcome(root: string, files: Files, identifier: string)
    ensures var slug := Slug(identifier);
      var path := PostPath(root, slug);
      match LoadPost(root, files, identifier)
      case Ok(r) =>
        && path in files
        && "date" in files[path].data && files[path].data["date"].Time?
        && r == Merge(slug, files[path].data, files[path].content, files[path].data["date"].t)
      case Err(e) =>
        || (path !in files && e == NotFound(path))
        || (path in files && e == MissingDate(slug)
            && ("date" !in files[path].data || files[path].data["date"] in {Null, Undefined}))
        || (path in files && e == UnparsedDate(slug)
            && "date" in files[path].data && !files[path].data["date"].Time?
            && files[path].data["date"] !in {Null, Undefined})
  {
  }

  /** A loaded record's fields, in the terms of the source's object literal. */
  lemma LoadedRecordFields(root: string, files: Files, identifier: string)
    requires LoadPost(root, files, identifier).Ok?
    ensures var path := PostPath(root, Slug(identifier));
      var r := LoadPost(root, files, identifier).value;
      var data := files[path].data;
      && r["content"] == Str(files[path].content)
      && Time(DateOf(r)) == data["date"]
      && r["slug"] == (if "slug" in data then data["slug"] else Str(Slug(identifier)))
      && (Truthy(r["isFeatured"]) <==> "isFeatured" in data && Truthy(data["isFeatured"]))
  {
  }

  // ---------------------------------------------------------------------------
  // getAllPosts

  /** `postFiles.map(getPostData)`: the first failing entry aborts the whole listing. */
  function LoadAll(root: string, files: Files, ids: seq<string>): (r: Result<seq<Record>, LoadError>)
    ensures r.Ok? ==> |r.value| == |ids|
  {
    if ids == [] then Ok([])
    else
      match LoadPost(root, files, ids[0])
      case Err(e) => Err(e)
      case Ok(post) =>
        var rest := LoadAll(root, files, ids[1..]);
        if rest.Err? then Err(rest.error) else Ok([post] + rest.value)
  }

  /** The listing loads iff every entry does. */
  lemma {:induction false} LoadAllSucceeds(root: string, files: Files, ids: seq<string>)
    ensures LoadAll(root, files, ids).Ok? <==> forall i :: 0 <= i < |ids| ==> LoadPost(root, files, ids[i]).Ok?
  {
    if ids != [] {
      LoadAllSucceeds(root, files, ids[1..]);
      assert forall i :: 1 <= i < |ids| ==> ids[i] == ids[1..][i - 1];
    }
  }

  /** A loaded listing holds each entry's record at the entry's position. */
  lemma {:induction false} LoadAllRecords(root: string, files: Files, ids: seq<string>)
    requires LoadAll(root, files, ids).Ok?
    ensures forall i :: 0 <= i < |ids| ==>
      LoadPost(root, files, ids[i]).Ok? && LoadAll(root, files, ids).value[i] == LoadPost(root, files, ids[i]).value
  {
    if ids != [] {
      LoadAllRecords(root, files, ids[1..]);
      assert forall i :: 1 <= i < |ids| ==> ids[i] == ids[1..][i - 1];
    }
  }

  /** A failing listing reports the error of its first failing entry. */
  lemma {:induction false} LoadAllFirstFailure(root: string, files: Files, ids: seq<string>)
    requires LoadAll(root, files, ids).Err?
    ensures exists i :: (
      && 0 <= i < |ids| && LoadPost(root, files, ids[i]) == Err(LoadAll(root, files, ids).error)
      && forall j :: 0 <= j < i ==> LoadPost(root, files, ids[j]).Ok?)
  {
    var e := LoadAll(root, files, ids).error;
    if LoadPost(root, files, ids[0]).Err? {
      assert LoadPost(root, files, ids[0]) == Err(e);
    } else {
      LoadAllFirstFailure(root, files, ids[1..]);
      var k :| 0 <= k < |ids[1..]| && LoadPost(root, files, ids[1..][k]) == Err(e)
        && forall j :: 0 <= j < k ==> LoadPost(root, files, ids[1..][j]).Ok?;
      assert ids[k + 1] == ids[1..][k];
      assert forall j :: 1 <= j < k + 1 ==> ids[j] == ids[1..][j - 1];
    }
  }

  /** Most recent first: no record is preceded by an older one. */
  predicate SortedByDateDesc(s: seq<Record>)
  {
    forall p, q :: 0 <= p < q < |s| ==> DateOf(s[p]) >= DateOf(s[q])
  }

  /** The records of `s` dated `d`, in their order in `s`. */
  function WithDate(s: seq<Record>, d: int): (r: seq<Record>)
    ensures |r| <= |s|
  {
    if s == [] then []
    else if DateOf(s[0]) == d then [s[0]] + WithDate(s[1..], d)
    else WithDate(s[1..], d)
  }

  /** Posts of the same date stand in the same relative order in `s` and in `t`. */
  ghost predicate SameDateOrder(s: seq<Record>, t: seq<Record>)
  {
    forall d :: WithDate(s, d) == WithDate(t, d)
  }

  /**
   * The stable sort by descending date: each post goes before every later
   * entry that is not newer than it, so posts of one date keep the order of
   * the directory listing (`Array.prototype.sort` is stable).
   */
  function SortedListing(s: seq<Record>): (r: seq<Record>)
    ensures |r| == |s|
  {
    if s == [] then [] else InsertByDate(s[0], SortedListing(s[1..]))
  }

  /** Places `x` in front of the first post of `s` that is not newer than it. */
  function InsertByDate(x: Record, s: seq<Record>): (r: seq<Record>)
    ensures |r| == |s| + 1
  {
    if s == [] || DateOf(x) >= DateOf(s[0]) then [x] + s
    else [s[0]] + InsertByDate(x, s[1..])
  }

  lemma {:induction false} WithDateConcat(a: seq<Record>, b: seq<Record>, d: int)
    ensures WithDate(a + b, d) == WithDate(a, d) + WithDate(b, d)
  {
    if a == [] {
      assert a + b == b;
    } else {
      assert (a + b)[1..] == a[1..] + b;
      WithDateConcat(a[1..], b, d);
    }
  }

  lemma WithDateSingle(x: Record, d: int)
    ensures WithDate([x], d) == if DateOf(x) == d then [x] else []
  {
    assert [x][1..] == [];
  }

  /** Two posts of different dates may trade places without changing any date's order. */
  lemma WithDatePair(x: Record, y: Record, d: int)
    requires DateOf(x) != DateOf(y)
    ensures WithDate([x] + [y], d) == WithDate([y] + [x], d)
  {
    WithDateConcat([x], [y], d);
    WithDateConcat([y], [x], d);
    WithDateSingle(x, d);
    WithDateSingle(y, d);
  }

  lemma {:induction false} WithDateMembers(s: seq<Record>, d: int)
    ensures forall y :: y in WithDate(s, d) <==> y in s && DateOf(y) == d
  {
    if s != [] {
      WithDateMembers(s[1..], d);
      assert s == [s[0]] + s[1..];
    }
  }

  /** Exchanging two neighbours of different dates keeps the order within every date. */
  lemma SwapKeepsDateOrder(s: seq<Record>, k: nat)
    requires k + 1 < |s| && DateOf(s[k]) != DateOf(s[k + 1])
    ensures SameDateOrder(s[k := s[k + 1]][k + 1 := s[k]], s)
  {
    var t := s[k := s[k + 1]][k + 1 := s[k]];
    var pre, post := s[..k], s[k + 2..];
    assert s == pre + ([s[k]] + [s[k + 1]]) + post;
    assert t == pre + ([s[k + 1]] + [s[k]]) + post;
    forall d ensures WithDate(t, d) == WithDate(s, d) {
      WithDateConcat(pre + ([s[k]] + [s[k + 1]]), post, d);
      WithDateConcat(pre, [s[k]] + [s[k + 1]], d);
      WithDateConcat(pre + ([s[k + 1]] + [s[k]]), post, d);
      WithDateConcat(pre, [s[k + 1]] + [s[k]], d);
      WithDatePair(s[k], s[k + 1], d);
    }
  }

  /** The head of a sorted listing is at least as recent as every post in it. */
  lemma SortedHead(s: seq<Record>)
    requires s != [] && SortedByDateDesc(s)
    ensures forall y :: y in s ==> DateOf(s[0]) >= DateOf(y)
    ensures SortedByDateDesc(s[1..])
  {
    forall y | y in s ensures DateOf(s[0]) >= DateOf(y) {
      var i :| 0 <= i < |s| && s[i] == y;
    }
  }

  lemma SortedCons(y: Record, s: seq<Record>)
    requires SortedByDateDesc(s)
    requires forall z :: z in s ==> DateOf(y) >= DateOf(z)
    ensures SortedByDateDesc([y] + s)
  {
    var t := [y] + s;
    forall p, q | 0 <= p < q < |t| ensures DateOf(t[p]) >= DateOf(t[q]) {
      assert t[q] == s[q - 1];
      if p == 0 {
        assert s[q - 1] in s;
      } else {
        assert t[p] == s[p - 1];
      }
    }
  }

  lemma {:induction false} InsertByDateSpec(x: Record, s: seq<Record>)
    requires SortedByDateDesc(s)
    ensures SortedByDateDesc(InsertByDate(x, s))
    ensures multiset(InsertByDate(x, s)) == multiset([x] + s)
    ensures SameDateOrder(InsertByDate(x, s), [x] + s)
  {
    InsertByDateCounts(x, s);
    InsertByDateOrder(x, s);
    if s == [] || DateOf(x) >= DateOf(s[0]) {
      if s != [] { SortedHead(s); }
      SortedCons(x, s);
    } else {
      SortedHead(s);
      InsertByDateSpec(x, s[1..]);
      var r := InsertByDate(x, s[1..]);
      forall z | z in r ensures DateOf(s[0]) >= DateOf(z) {
        assert z in multiset(r);
      }
      SortedCons(s[0], r);
    }
  }

  lemma {:induction false} InsertByDateCounts(x: Record, s: seq<Record>)
    ensures multiset(InsertByDate(x, s)) == multiset([x] + s)
  {
    if s != [] && DateOf(x) < DateOf(s[0]) {
      InsertByDateCounts(x, s[1..]);
      assert s == [s[0]] + s[1..];
    }
  }

  lemma {:induction false} InsertByDateOrder(x: Record, s: seq<Record>)
    ensures SameDateOrder(InsertByDate(x, s), [x] + s)
  {
    if s != [] && DateOf(x) < DateOf(s[0]) {
      InsertByDateOrder(x, s[1..]);
      forall d ensures WithDate(InsertByDate(x, s), d) == WithDate([x] + s, d) {
        PassOver(s[0], x, s[1..], InsertByDate(x, s[1..]), d);
      }
    }
  }

  /** One step of the insertion: `x` passes a newer `y`. */
  lemma PassOver(y: Record, x: Record, rest: seq<Record>, r: seq<Record>, d: int)
    requires DateOf(x) != DateOf(y)
    requires WithDate(r, d) == WithDate([x] + rest, d)
    ensures WithDate([y] + r, d) == WithDate([x] + ([y] + rest), d)
  {
    WithDateConcat([y], r, d);
    WithDateConcat([x], rest, d);
    WithDateConcat([y] + [x], rest, d);
    WithDateConcat([x] + [y], rest, d);
    WithDateConcat([y], [x], d);
    WithDatePair(y, x, d);
    assert [y] + ([x] + rest) == ([y] + [x]) + rest;
    assert [x] + ([y] + rest) == ([x] + [y]) + rest;
  }

  /** The stable sort yields a sorted permutation that keeps the order within each date. */
  lemma {:induction false} SortedListingSpec(s: seq<Record>)
    ensures SortedByDateDesc(SortedListing(s))
    ensures multiset(SortedListing(s)) == multiset(s)
    ensures SameDateOrder(SortedListing(s), s)
  {
    if s != [] {
      var rest := SortedListing(s[1..]);
      SortedListingSpec(s[1..]);
      InsertByDateSpec(s[0], rest);
      assert s == [s[0]] + s[1..];
      forall d ensures WithDate([s[0]] + rest, d) == WithDate(s, d) {
        WithDateConcat([s[0]], rest, d);
        WithDateConcat([s[0]], s[1..], d);
      }
    }
  }

  /** Two sorted listings that agree on the order within every date are equal. */
  lemma {:induction false} SortedUnique(s: seq<Record>, t: seq<Record>)
    requires SortedByDateDesc(s) && SortedByDateDesc(t) && SameDateOrder(s, t)
    ensures s == t
    decreases |s|
  {
    BothEmpty(s, t);
    if s != [] {
      HeadsAgree(s, t);
      TailsAgree(s, t);
      SortedHead(s);
      SortedHead(t);
      SortedUnique(s[1..], t[1..]);
      assert s == [s[0]] + s[1..] && t == [t[0]] + t[1..];
    }
  }

  lemma BothEmpty(s: seq<Record>, t: seq<Record>)
    requires SameDateOrder(s, t)
    ensures s == [] <==> t == []
  {
    if s != [] {
      WithDateMembers(s, DateOf(s[0]));
      WithDateMembers(t, DateOf(s[0]));
      assert s[0] in WithDate(s, DateOf(s[0]));
    }
    if t != [] {
      WithDateMembers(s, DateOf(t[0]));
      WithDateMembers(t, DateOf(t[0]));
      assert t[0] in WithDate(t, DateOf(t[0]));
    }
  }

  /** The newest date comes first in both, and so does its first post. */
  lemma HeadsAgree(s: seq<Record>, t: seq<Record>)
    requires s != [] && t != []
    requires SortedByDateDesc(s) && SortedByDateDesc(t) && SameDateOrder(s, t)
    ensures s[0] == t[0]
  {
    var m, n := DateOf(s[0]), DateOf(t[0]);
    SortedHead(s);
    SortedHead(t);
    WithDateMembers(s, n);
    WithDateMembers(t, m);
    assert s[0] in WithDate(s, m);
    assert t[0] in WithDate(t, n);
    assert m == n;
    assert WithDate(s, m) == WithDate(t, m);
    assert WithDate(s, m)[0] == s[0];
    assert WithDate(t, m)[0] == t[0];
  }

  lemma TailsAgree(s: seq<Record>, t: seq<Record>)
    requires s != [] && t != [] && s[0] == t[0] && SameDateOrder(s, t)
    ensures SameDateOrder(s[1..], t[1..])
  {
    forall d ensures WithDate(s[1..], d) == WithDate(t[1..], d) {
      if DateOf(s[0]) == d {
        assert WithDate(s, d)[1..] == WithDate(s[1..], d);
        assert WithDate(t, d)[1..] == WithDate(t[1..], d);
      }
    }
  }

  /** The in-place `Array.prototype.sort` with comparator `dateB - dateA`. */
  method SortByDateDesc(a: array<Record>)
    modifies a
    ensures SortedByDateDesc(a[..])
    ensures multiset(a[..]) == multiset(old(a[..]))
    ensures SameDateOrder(a[..], old(a[..]))
  {
    var i := 0;
    while i < a.Length
      invariant 0 <= i <= a.Length
      invariant forall p, q :: 0 <= p < q < i ==> DateOf(a[p]) >= DateOf(a[q])
      invariant multiset(a[..]) == multiset(old(a[..]))
      invariant SameDateOrder(a[..], old(a[..]))
    {
      InsertLeft(a, i);
      i := i + 1;
    }
  }

  /** The first `i + 1` posts are sorted, except that the post at `j` may be newer than those before it. */
  ghost predicate SortedBut(s: seq<Record>, i: int, j: int)
    requires i < |s|
  {
    forall p, q :: 0 <= p < q <= i && q != j ==> DateOf(s[p]) >= DateOf(s[q])
  }

  /** Swapping the out-of-place post with its older left neighbour moves the gap one step left. */
  lemma SwapLeftStep(s: seq<Record>, t: seq<Record>, i: nat, j: nat)
    requires 0 < j <= i < |s| && SortedBut(s, i, j) && DateOf(s[j - 1]) < DateOf(s[j])
    requires t == s[j - 1 := s[j]][j := s[j - 1]]
    ensures SortedBut(t, i, j - 1) && t[i + 1..] == s[i + 1..]
  {
    assert t[i + 1..] == s[i + 1..];
  }

  /** Once the post at `j` is not newer than its left neighbour, the prefix is sorted. */
  lemma SortedButSettled(s: seq<Record>, i: nat, j: nat)
    requires j <= i < |s| && SortedBut(s, i, j)
    requires j == 0 || DateOf(s[j - 1]) >= DateOf(s[j])
    ensures forall p, q :: 0 <= p < q <= i ==> DateOf(s[p]) >= DateOf(s[q])
  {
    forall p, q | 0 <= p < q <= i
      ensures DateOf(s[p]) >= DateOf(s[q])
    {
      if q == j && p < j - 1 {
        assert DateOf(s[p]) >= DateOf(s[j - 1]);
      }
    }
  }

  /** Moves `a[i]` left past every older post, extending the sorted prefix by one. */
  method InsertLeft(a: array<Record>, i: nat)
    requires i < a.Length
    requires forall p, q :: 0 <= p < q < i ==> DateOf(a[p]) >= DateOf(a[q])
    modifies a
    ensures forall p, q :: 0 <= p < q <= i ==> DateOf(a[p]) >= DateOf(a[q])
    ensures a[i + 1..] == old(a[i + 1..])
    ensures multiset(a[..]) == multiset(old(a[..]))
    ensures SameDateOrder(a[..], old(a[..]))
  {
    var j := i;
    while j > 0 && DateOf(a[j - 1]) < DateOf(a[j])
      invariant 0 <= j <= i
      invariant SortedBut(a[..], i, j)
      invariant a[i + 1..] == old(a[i + 1..])
      invariant multiset(a[..]) == multiset(old(a[..]))
      invariant SameDateOrder(a[..], old(a[..]))
    {
      ghost var prev := a[..];
      SwapAdjacent(a, j - 1);
      SwapLeftStep(prev, a[..], i, j);
      j := j - 1;
    }
    SortedButSettled(a[..], i, j);
  }

  /** Exchanges `a[k]` and `a[k + 1]`; neighbours of different dates keep every date's order. */
  method SwapAdjacent(a: array<Record>, k: nat)
    requires k + 1 < a.Length
    modifies a
    ensures a[..] == old(a[..])[k := old(a[k + 1])][k + 1 := old(a[k])]
    ensures multiset(a[..]) == multiset(old(a[..]))
    ensures DateOf(old(a[k])) != DateOf(old(a[k + 1])) ==> SameDateOrder(a[..], old(a[..]))
  {
    ghost var before := a[..];
    a[k], a[k + 1] := a[k + 1], a[k];
    if DateOf(before[k]) != DateOf(before[k + 1]) {
      SwapKeepsDateOrder(before, k);
    }
  }

  /** `getAllPosts()`: loads every directory entry, then sorts by descending date. */
  method GetAllPosts(root: string, files: Files, listing: Option<seq<string>>)
    returns (r: Result<seq<Record>, LoadError>)
    ensures listing.None? ==> r == Err(DirectoryUnreadable)
    ensures listing.Some? && LoadAll(root, files, listing.value).Err? ==>
      r == Err(LoadAll(root, files, listing.value).error)
    ensures listing.Some? && LoadAll(root, files, listing.value).Ok? ==>
      var loaded := LoadAll(root, files, listing.value).value;
      && r == Ok(SortedListing(loaded))
      && |r.value| == |listing.value|
      && SortedByDateDesc(r.value)
      && multiset(r.value) == multiset(loaded)
      && SameDateOrder(r.value, loaded)
  {
    if listing.None? {
      return Err(DirectoryUnreadable);
    }
    var loaded := LoadAll(root, files, listing.value);
    if loaded.Err? {
      return Err(loaded.error);
    }
    var posts := loaded.value;
    var a := new Record[|posts|](i requires 0 <= i < |posts| => posts[i]);
    assert a[..] == posts;
    SortByDateDesc(a);
    SortedListingSpec(posts);
    SortedUnique(a[..], SortedListing(posts));
    r := Ok(a[..]);
  }

  // ---------------------------------------------------------------------------
  // getFeaturedPosts

  /** `p.isFeatured` is truthy; a missing flag is `undefined`, hence falsy. */
  predicate IsFeatured(r: Record)
  {
    "isFeatured" in r && Truthy(r["isFeatured"])
  }

  /** `allPosts.filter((p) => p.isFeatured)`. */
  function Featured(posts: seq<Record>): (r: seq<Record>)
    ensures |r| <= |posts|
  {
    if posts == [] then []
    else if IsFeatured(posts[0]) then [posts[0]] + Featured(posts[1..])
    else Featured(posts[1..])
  }

  /** `a` is `b` with some elements deleted, the rest in the same order. */
  predicate IsSubsequence<T(==)>(a: seq<T>, b: seq<T>)
  {
    if a == [] then true
    else if b == [] then false
    else if a[0] == b[0] then IsSubsequence(a[1..], b[1..])
    else IsSubsequence(a, b[1..])
  }

  lemma {:induction false} FeaturedIsSubsequence(posts: seq<Record>)
    ensures IsSubsequence(Featured(posts), posts)
  {
    if posts != [] {
      FeaturedIsSubsequence(posts[1..]);
      var f := Featured(posts);
      if IsFeatured(posts[0]) {
        assert f[0] == posts[0] && f[1..] == Featured(posts[1..]);
      } else if f != [] {
        FeaturedAllFeatured(posts[1..]);
        assert IsFeatured(f[0]);
      }
    }
  }

  lemma {:induction false} FeaturedAllFeatured(posts: seq<Record>)
    ensures forall i :: 0 <= i < |Featured(posts)| ==> IsFeatured(Featured(posts)[i])
  {
    if posts != [] {
      FeaturedAllFeatured(posts[1..]);
    }
  }

  /** Exactly the featured posts are kept, each as often as it occurs. */
  lemma {:induction false} FeaturedCounts(posts: seq<Record>)
    ensures forall x :: multiset(Featured(posts))[x] == if IsFeatured(x) then multiset(posts)[x] else 0
  {
    if posts != [] {
      FeaturedCounts(posts[1..]);
      assert posts == [posts[0]] + posts[1..];
    }
  }

  lemma FeaturedMembers(posts: seq<Record>)
    ensures forall x :: x in Featured(posts) <==> x in posts && IsFeatured(x)
  {
    FeaturedCounts(posts);
    forall x ensures x in Featured(posts) <==> x in posts && IsFeatured(x) {
      assert x in Featured(posts) <==> x in multiset(Featured(posts));
      assert x in posts <==> x in multiset(posts);
    }
  }

  /** A subsequence of a sorted listing is sorted. */
  lemma {:induction false} SubsequenceKeepsOrder(a: seq<Record>, b: seq<Record>)
    requires IsSubsequence(a, b) && SortedByDateDesc(b)
    ensures SortedByDateDesc(a)
    ensures forall i :: 0 <= i < |a| ==> a[i] in b
  {
    if a != [] && b != [] {
      assert SortedByDateDesc(b[1..]);
      if a[0] == b[0] {
        SubsequenceKeepsOrder(a[1..], b[1..]);
        forall q | 0 < q < |a| ensures DateOf(a[0]) >= DateOf(a[q]) {
          assert a[q] == a[1..][q - 1];
          assert a[q] in b[1..];
        }
        forall i | 0 <= i < |a| ensures a[i] in b {
          if i > 0 { assert a[i] == a[1..][i - 1]; }
        }
      } else {
        SubsequenceKeepsOrder(a, b[1..]);
      }
    }
  }

  /**
   * `getFeaturedPosts()`: the featured posts of the sorted listing, in its
   * order; a listing that fails passes its error on.
   */
  method GetFeaturedPosts(root: string, files: Files, listing: Option<seq<string>>)
    returns (r: Result<seq<Record>, LoadError>)
    ensures listing.None? ==> r == Err(DirectoryUnreadable)
    ensures listing.Some? && LoadAll(root, files, listing.value).Err? ==>
      r == Err(LoadAll(root, files, listing.value).error)
    ensures listing.Some? && LoadAll(root, files, listing.value).Ok? ==>
      var sorted := SortedListing(LoadAll(root, files, listing.value).value);
      && r == Ok(Featured(sorted))
      && IsSubsequence(r.value, sorted)
      && SortedByDateDesc(r.value)
  {
    var sorted := GetAllPosts(root, files, listing);
    if sorted.Err? {
      return sorted;
    }
    var featured := Featured(sorted.value);
    FeaturedIsSubsequence(sorted.value);
    SubsequenceKeepsOrder(featured, sorted.value);
    r := Ok(featured);
  }
}
