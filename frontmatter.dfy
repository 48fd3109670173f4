/**
 * Front matter: a Markdown file counts as a task file only when it opens
 * with `---` and `content.split("---", 2)` yields three pieces; the middle
 * piece goes to the YAML loader, which is a parameter here.
 */
module FrontMatter {
  import opened Options
  import opened Text
  import opened Yaml

  /** A Markdown file met by a scan: its name, its path and its text (None when reading fails). */
  datatype Doc = Doc(name: string, path: string, content: Option<string>)

  const Fence: string := "---"

  /**
   * `yaml.safe_load` of a block: None when it raises or yields something
   * other than a mapping (on which `.get` would raise), else the mapping.
   */
  type Loader = string -> Option<Meta>

  /** `parts[1]` of `content.split("---", 2)` when `content` starts with `---` and there are 3 parts. */
  function Block(content: string): (r: Option<string>)
    ensures r.Some? ==> StartsWith(content, Fence)
  {
    if !StartsWith(content, Fence) then None
    else
      var parts := SplitMax(content, Fence, 2);
      if |parts| < 3 then None else Some(parts[1])
  }

  /** What `Block` returns is exactly the text between the opening fence and the next `---`. */
  lemma BlockSound(content: string, y: string)
    requires Block(content) == Some(y)
    ensures |content| >= |y| + 6
    ensures content == Fence + y + Fence + content[|y| + 6..]
    ensures !Contains(y + "--", Fence)
  {
    assert At(content, Fence, 0);
    IndexOfFirst(content, Fence, 0);
    var c3 := content[3..];
    var i := IndexOf(c3, Fence).value;
    assert SplitMax(content, Fence, 2) == [""] + SplitMax(c3, Fence, 1);
    assert y == c3[..i];
    assert c3[i..i + 3] == Fence;
    assert content == Fence + y + Fence + content[|y| + 6..];
    assert y + "--" == c3[..i + 2];
    NoOccurrenceBefore(c3, Fence, i, y + "--");
  }

  /** Conversely, any block without `---` in it (nor straddling the closing fence) is found. */
  lemma BlockComplete(y: string, rest: string)
    requires !Contains(y + "--", Fence)
    ensures Block(Fence + y + Fence + rest) == Some(y)
  {
    var content := Fence + y + Fence + rest;
    assert content[..3] == Fence;
    assert At(content, Fence, 0);
    IndexOfFirst(content, Fence, 0);
    var c3 := content[3..];
    assert c3 == y + Fence + rest;
    assert At(c3, Fence, |y|);
    forall k | 0 <= k < |y| ensures !At(c3, Fence, k) {
      assert !At(y + "--", Fence, k);
      assert c3[k..k + 3] == (y + "--")[k..k + 3];
    }
    IndexOfFirst(c3, Fence, |y|);
    assert c3[..|y|] == y;
    assert SplitMax(content, Fence, 2) == ["", y, c3[|y| + 3..]];
  }

  /** `yaml.safe_load(parts[1])` when the result passes `if not metadata` (a non-empty mapping). */
  function Metadata(content: string, load: Loader): (r: Option<Meta>)
    ensures r.Some? ==> r.value != map[]
    ensures !StartsWith(content, Fence) ==> r.None?
  {
    match Block(content)
    case None => None
    case Some(y) =>
      match load(y)
      case None => None
      case Some(m) => if m == map[] then None else Some(m)
  }

  /** A file framed by fences yields the mapping its block loads to, unless that is empty. */
  lemma MetadataOfFile(y: string, rest: string, load: Loader)
    requires !Contains(y + "--", Fence)
    ensures Metadata(Fence + y + Fence + rest, load) == if load(y).Some? && load(y).value != map[] then load(y) else None
  {
    BlockComplete(y, rest);
  }

  /** The same for a scanned file, whose read may fail. */
  function DocMetadata(doc: Doc, load: Loader): Option<Meta> {
    match doc.content
    case None => None
    case Some(c) => Metadata(c, load)
  }
}
