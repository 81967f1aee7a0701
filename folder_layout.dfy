/**
 * folder.js: for every category of the item list and every item in it,
 * the folder `BAHAN_ONEPIECE/<category>/<item>` (both names passed through
 * `sanitizeName`) is made when missing and an empty `info.txt` is written
 * into it. The file system is a set of folders and a map from file path
 * to content; the parsed JSON is an input.
 */
module FolderLayout {
  import opened Text
  import opened Sanitize

  const MainFolder: string := "BAHAN_ONEPIECE"

  /**
   * One property of the parsed JSON object, in the order `for ... in`
   * visits them; `list` is `None` when the value is falsy (`null`, say).
   */
  datatype Category = Category(name: string, list: Option<seq<string>>)

  /** `items[category] || []`: a missing list counts as empty. */
  function ItemList(list: Option<seq<string>>): seq<string>
  {
    if list.Some? then list.value else []
  }

  /**
   * `path.join(dir, name)` for a `name` that holds no `/` and no `.`, as
   * every sanitized name: an empty name adds nothing.
   */
  function JoinPath(dir: string, name: string): string
  {
    if name == [] then dir else dir + "/" + name
  }

  function CategoryPath(category: string): string
  {
    JoinPath(MainFolder, SanitizeName(category))
  }

  function ItemFolder(category: string, item: string): string
  {
    JoinPath(CategoryPath(category), SanitizeName(item))
  }

  function InfoFile(category: string, item: string): string
  {
    ItemFolder(category, item) + "/info.txt"
  }

  /** `f` of each of `items`, added one by one. */
  function Images(f: string -> string, items: seq<string>): set<string>
  {
    if items == [] then {} else Images(f, items[..|items| - 1]) + {f(items[|items| - 1])}
  }

  /** The union of `g` over `cats`, added one by one. */
  function UnionOver(g: Category -> set<string>, cats: seq<Category>): set<string>
  {
    if cats == [] then {} else UnionOver(g, cats[..|cats| - 1]) + g(cats[|cats| - 1])
  }

  /** The item folders of one category, item by item. */
  function ItemFolders(category: string, items: seq<string>): set<string>
  {
    Images(item => ItemFolder(category, item), items)
  }

  /** The `info.txt` files of one category, item by item. */
  function InfoFiles(category: string, items: seq<string>): set<string>
  {
    Images(item => InfoFile(category, item), items)
  }

  /** The folders made for one category: its own and one per listed item. */
  function CategoryFolders(c: Category): set<string>
  {
    {CategoryPath(c.name)} + ItemFolders(c.name, ItemList(c.list))
  }

  function CategoryInfoFiles(c: Category): set<string>
  {
    InfoFiles(c.name, ItemList(c.list))
  }

  /** Every folder the loops make, category by category. */
  function TreeFolders(cats: seq<Category>): set<string>
  {
    UnionOver(CategoryFolders, cats)
  }

  /** Every `info.txt` the loops write. */
  function TreeInfoFiles(cats: seq<Category>): set<string>
  {
    UnionOver(CategoryInfoFiles, cats)
  }

  /** Empty content for each of `paths`. */
  function Blank(paths: set<string>): (m: map<string, string>)
    ensures m.Keys == paths
    ensures forall p :: p in m ==> m[p] == ""
  {
    map p | p in paths :: ""
  }

  // ------------------------------------------------------------ the paths

  /** Non-empty components without `/` joined by `/` split back into themselves. */
  lemma JoinedComponents(c: string, i: string)
    requires '/' !in c && '/' !in i
    ensures Split(JoinPath(JoinPath(MainFolder, c), i), "/")
      == [MainFolder] + (if c == [] then [] else [c]) + (if i == [] then [] else [i])
  {
    var parts := [MainFolder] + (if c == [] then [] else [c]) + (if i == [] then [] else [i]);
    assert '/' !in MainFolder;
    if c != [] && i != [] {
      assert parts == [MainFolder, c, i];
      assert parts[1..] == [c, i] && parts[1..][1..] == [i];
      assert Join([c, i], "/") == c + "/" + i;
      assert Join(parts, "/") == MainFolder + "/" + (c + "/" + i);
      assert MainFolder + "/" + (c + "/" + i) == MainFolder + "/" + c + "/" + i;
    } else if c != [] {
      assert parts == [MainFolder, c];
      assert parts[1..] == [c];
    } else if i != [] {
      assert parts == [MainFolder, i];
      assert parts[1..] == [i];
    } else {
      assert parts == [MainFolder];
    }
    SplitJoin(parts, "/");
  }

  /**
   * A folder path splits at `/` into `BAHAN_ONEPIECE` followed by the
   * sanitized category and item names, an empty name adding no level: a
   * name with nothing left after sanitizing puts its folder one level up.
   */
  lemma ItemFolderComponents(category: string, item: string)
    ensures var c, i := SanitizeName(category), SanitizeName(item);
      Split(ItemFolder(category, item), "/")
        == [MainFolder] + (if c == [] then [] else [c]) + (if i == [] then [] else [i])
  {
    var c, i := SanitizeName(category), SanitizeName(item);
    SanitizeNameChars(category);
    SanitizeNameChars(item);
    assert '/' !in c by { assert !IsNameChar('/'); }
    assert '/' !in i by { assert !IsNameChar('/'); }
    JoinedComponents(c, i);
  }

  predicate IsPathChar(c: char) { IsNameChar(c) || c == '/' }

  lemma JoinPathChars(dir: string, name: string)
    requires All(dir, IsPathChar) && All(name, IsNameChar)
    ensures All(JoinPath(dir, name), IsPathChar)
  {
    if name != [] {
      assert forall k :: 0 <= k < |name| ==> IsPathChar(name[k]);
      AllConcat(dir, "/", IsPathChar);
      AllConcat(dir + "/", name, IsPathChar);
    }
  }

  /**
   * No folder path holds a `.`, so an `info.txt` path is never one of the
   * folders: each write lands inside the item folder, not on top of one.
   */
  lemma InfoFileNotFolder(category: string, item: string)
    ensures '.' !in CategoryPath(category) && '.' !in ItemFolder(category, item)
    ensures InfoFile(category, item) != ItemFolder(category, item)
    ensures InfoFile(category, item) != CategoryPath(category)
  {
    SanitizeNameChars(category);
    SanitizeNameChars(item);
    assert All(MainFolder, IsPathChar);
    JoinPathChars(MainFolder, SanitizeName(category));
    JoinPathChars(CategoryPath(category), SanitizeName(item));
    var f := ItemFolder(category, item);
    var info := InfoFile(category, item);
    assert info[|f| + 5] == '.';
    assert '.' in info;
  }

  // -------------------------------------------------------- the whole tree

  lemma {:induction false} ImagesExactly(f: string -> string, items: seq<string>, p: string)
    ensures p in Images(f, items) <==> exists j :: 0 <= j < |items| && p == f(items[j])
    decreases |items|
  {
    if items != [] {
      var n := |items| - 1;
      ImagesExactly(f, items[..n], p);
      if exists j :: 0 <= j < |items| && p == f(items[j]) {
        var j :| 0 <= j < |items| && p == f(items[j]);
        if j < n {
          assert items[..n][j] == items[j];
        }
      }
      if p in Images(f, items[..n]) {
        var j :| 0 <= j < n && p == f(items[..n][j]);
        assert items[..n][j] == items[j];
      }
    }
  }

  lemma {:induction false} UnionOverExactly(g: Category -> set<string>, cats: seq<Category>, p: string)
    ensures p in UnionOver(g, cats) <==> exists i :: 0 <= i < |cats| && p in g(cats[i])
    decreases |cats|
  {
    if cats != [] {
      var n := |cats| - 1;
      UnionOverExactly(g, cats[..n], p);
      if exists i :: 0 <= i < |cats| && p in g(cats[i]) {
        var i :| 0 <= i < |cats| && p in g(cats[i]);
        if i < n {
          assert cats[..n][i] == cats[i];
        }
      }
      if p in UnionOver(g, cats[..n]) {
        var i :| 0 <= i < n && p in g(cats[..n][i]);
        assert cats[..n][i] == cats[i];
      }
    }
  }

  /** The item folders of a category are exactly those of its items ... */
  lemma ItemFoldersExactly(category: string, items: seq<string>, p: string)
    ensures p in ItemFolders(category, items) <==> exists j :: 0 <= j < |items| && p == ItemFolder(category, items[j])
  {
    ImagesExactly(item => ItemFolder(category, item), items, p);
  }

  /** ... and so are its `info.txt` files. */
  lemma InfoFilesExactly(category: string, items: seq<string>, p: string)
    ensures p in InfoFiles(category, items) <==> exists j :: 0 <= j < |items| && p == InfoFile(category, items[j])
  {
    ImagesExactly(item => InfoFile(category, item), items, p);
  }

  /** The folders made are exactly those the categories account for ... */
  lemma TreeFoldersExactly(cats: seq<Category>, p: string)
    ensures p in TreeFolders(cats) <==> exists i :: 0 <= i < |cats| && p in CategoryFolders(cats[i])
  {
    UnionOverExactly(CategoryFolders, cats, p);
  }

  /** ... and the `info.txt` files written are exactly one per listed item. */
  lemma TreeInfoFilesExactly(cats: seq<Category>, p: string)
    ensures p in TreeInfoFiles(cats) <==> exists i :: 0 <= i < |cats| && p in CategoryInfoFiles(cats[i])
  {
    UnionOverExactly(CategoryInfoFiles, cats, p);
  }

  /** A category whose value is falsy gets its folder and nothing inside it. */
  lemma FalsyListOnlyFolder(cats: seq<Category>, name: string)
    ensures TreeFolders(cats + [Category(name, None)]) == TreeFolders(cats) + {CategoryPath(name)}
    ensures TreeInfoFiles(cats + [Category(name, None)]) == TreeInfoFiles(cats)
  {
    var all := cats + [Category(name, None)];
    assert all[..|all| - 1] == cats;
  }

  // ---------------------------------------------------------- the script

  lemma BlankAdd(old0: map<string, string>, paths: set<string>, p: string)
    ensures old0 + Blank(paths + {p}) == (old0 + Blank(paths))[p := ""]
  {
  }

  lemma BlankUnion(base: map<string, string>, a: set<string>, b: set<string>)
    ensures base + Blank(a) + Blank(b) == base + Blank(a + b)
  {
  }

  class FileTree {
    var folders: set<string>
    var files: map<string, string>

    constructor (folders0: set<string>, files0: map<string, string>)
      ensures folders == folders0 && files == files0
    {
      folders := folders0;
      files := files0;
    }

    /**
     * The inner loop (folder.js:39-48): for each listed item, its folder
     * when missing and an empty `info.txt` that replaces whatever the file
     * held.
     */
    method MakeItems(category: string, categoryPath: string, itemList: seq<string>)
      requires categoryPath == CategoryPath(category)
      modifies this
      ensures folders == old(folders) + ItemFolders(category, itemList)
      ensures files == old(files) + Blank(InfoFiles(category, itemList))
    {
      var j := 0;
      while j < |itemList|
        invariant 0 <= j <= |itemList|
        invariant folders == old(folders) + ItemFolders(category, itemList[..j])
        invariant files == old(files) + Blank(InfoFiles(category, itemList[..j]))
      {
        assert itemList[..j + 1][..j] == itemList[..j];
        var itemFolder := JoinPath(categoryPath, SanitizeName(itemList[j]));
        if itemFolder !in folders {
          folders := folders + {itemFolder};
        }
        var infoFile := itemFolder + "/info.txt";
        BlankAdd(old(files), InfoFiles(category, itemList[..j]), infoFile);
        files := files[infoFile := ""];
        j := j + 1;
      }
      assert itemList[..j] == itemList;
    }

    /**
     * The script's loops (folder.js:25-49): the main folder, then for each
     * category its folder and the folders and files of its items.
     */
    method MakeTree(cats: seq<Category>)
      modifies this
      ensures folders == old(folders) + {MainFolder} + TreeFolders(cats)
      ensures files == old(files) + Blank(TreeInfoFiles(cats))
    {
      if MainFolder !in folders {
        folders := folders + {MainFolder};
      }
      var i := 0;
      while i < |cats|
        invariant 0 <= i <= |cats|
        invariant folders == old(folders) + {MainFolder} + TreeFolders(cats[..i])
        invariant files == old(files) + Blank(TreeInfoFiles(cats[..i]))
      {
        assert cats[..i + 1][..i] == cats[..i];
        var category := cats[i].name;
        var categoryPath := JoinPath(MainFolder, SanitizeName(category));
        if categoryPath !in folders {
          folders := folders + {categoryPath};
        }
        var itemList := ItemList(cats[i].list);
        BlankUnion(old(files), TreeInfoFiles(cats[..i]), InfoFiles(category, itemList));
        assert TreeInfoFiles(cats[..i + 1]) == TreeInfoFiles(cats[..i]) + InfoFiles(category, itemList);
        assert TreeFolders(cats[..i + 1]) == TreeFolders(cats[..i]) + {categoryPath} + ItemFolders(category, itemList);
        MakeItems(category, categoryPath, itemList);
        i := i + 1;
      }
      assert cats[..i] == cats;
    }
  }
}
