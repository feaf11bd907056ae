/**
 * The parts of Python's `pathlib` naming rules the downloader relies on
 * (`suffix`, `stem`, `with_stem`), and the abstract file-system path used by
 * the state machine: a directory string and an entry name inside it.
 */
module Paths {
  import opened PyText

  /** `Path(dir, name)`: the entry `name` directly inside directory `dir`. */
  datatype Path = Path(dir: string, name: string)

  /** `str(Path(dir, name))` */
  function PathString(p: Path): string {
    p.dir + "/" + p.name
  }

  /**
   * `PurePath.suffix`: the part from the last `.`, when that dot is neither
   * the first nor the last character of the name; otherwise empty.
   */
  function Suffix(name: string): (s: string)
    ensures EndsWith(name, s)
    ensures s != [] ==> s[0] == '.' && 1 < |s| < |name| && '.' !in s[1..]
  {
    match LastIndexOf(name, '.')
    case None => []
    case Some(i) => if 0 < i < |name| - 1 then name[i..] else []
  }

  /** `PurePath.stem`: the name without its suffix. */
  function Stem(name: string): (s: string)
    ensures s + Suffix(name) == name
  {
    name[..|name| - |Suffix(name)|]
  }

  /** `PurePath.with_stem(stem).name`: a new stem, the same suffix. */
  function WithStem(name: string, stem: string): string {
    stem + Suffix(name)
  }

  /** The suffix of `base + ext`, where `ext` is a dot and letters, is `ext` when `base` is not empty. */
  lemma SuffixOfExtension(base: string, ext: string)
    requires |ext| >= 2 && ext[0] == '.' && '.' !in ext[1..]
    ensures Suffix(base + ext) == (if base == [] then [] else ext)
    ensures Stem(base + ext) == (if base == [] then ext else base)
  {
    var name := base + ext;
    assert name[|base|] == '.';
    assert name[|base| + 1..] == ext[1..];
    match LastIndexOf(name, '.')
    case None =>
    case Some(i) =>
      assert name[i..] == ext;
  }
}
