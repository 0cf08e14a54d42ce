/** The output naming every converter shares: the file name is the text before the first
    occurrence of the input extension, after the last backslash, and the workbook path is the
    input path with `{name}{ext}` replaced by `{prefix}{name}.xlsx`. */
module Naming {
  import opened Base
  import opened Text

  /** `path.replace(f'{name}{ext}', f'{prefix}{name}.xlsx')` with
      `name = path.split(ext)[0].split('\\')[-1]`. */
  function OutputPath(path: string, ext: string, prefix: string): string
    requires ext != []
  {
    var name := FileStem(path, ext);
    ReplaceAll(path, name + ext, prefix + name + ".xlsx")
  }

  /** For the usual path `dir + name + ext` the file name is `name`, and the workbook goes
      beside the input as `{prefix}{name}.xlsx`. */
  lemma OutputPathOfPath(dir: string, name: string, ext: string, prefix: string)
    requires ext != []
    requires dir == [] || dir[|dir| - 1] == '\\'
    requires !Contains(name, "\\")
    requires IndexOf(dir + name + ext, ext) == Some(|dir + name|)
    ensures FileStem(dir + name + ext, ext) == name
    ensures OutputPath(dir + name + ext, ext, prefix) == dir + (prefix + name + ".xlsx")
  {
    var path := dir + name + ext;
    FileStemOfPath(dir, name, ext);
    assert OutputPath(path, ext, prefix) == ReplaceAll(path, name + ext, prefix + name + ".xlsx");
    NameFirstWhereExtensionFirst(dir, name, ext);
    assert dir + (name + ext) == path;
    ReplaceAtEnd(dir, name + ext, prefix + name + ".xlsx");
  }

  /** Where the extension first occurs right after `name`, `name + ext` first occurs there too. */
  lemma NameFirstWhereExtensionFirst(dir: string, name: string, ext: string)
    requires IndexOf(dir + name + ext, ext) == Some(|dir + name|)
    ensures IndexOf(dir + (name + ext), name + ext) == Some(|dir|)
  {
    var pat := name + ext;
    var path := dir + pat;
    assert path == dir + name + ext;
    assert path[|dir|..|dir| + |pat|] == pat;
    assert OccursAt(path, pat, |dir|);
    var x := IndexOf(path, pat).value;
    if x < |dir| {
      OccursInside(path, name, ext, x);
      assert false;
    }
  }

  lemma OccursInside(path: string, name: string, ext: string, j: nat)
    requires OccursAt(path, name + ext, j)
    ensures OccursAt(path, ext, j + |name|)
  {
    assert path[j + |name|..j + |name| + |ext|] == path[j..j + |name| + |ext|][|name|..];
  }

  /** The last entry of `p` satisfying `f`, or -1. */
  function LastWhere(p: string, f: char -> bool): (k: int)
    ensures -1 <= k < |p| && (k >= 0 ==> f(p[k])) && forall j :: k < j < |p| ==> !f(p[j])
  {
    if p == [] then -1
    else if f(p[|p| - 1]) then |p| - 1
    else LastWhere(p[..|p| - 1], f)
  }

  /** A Windows path separator: `os.path` on Windows accepts both slashes. */
  predicate IsSep(c: char) { c == '\\' || c == '/' }

  predicate IsDot(c: char) { c == '.' }
}
