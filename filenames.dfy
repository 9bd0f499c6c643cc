/**
 * File names of the label images and cell tables the counter writes next to each input:
 * `os.path.splitext(name)[0]` followed by a fixed suffix.
 */
module FileNames {

  /** The index of the last occurrence of `ch` in `s`, or -1 when there is none. */
  function LastIndexOf(s: string, ch: char): (i: int)
    ensures -1 <= i < |s|
    ensures i >= 0 ==> s[i] == ch
    ensures forall j :: i < j < |s| ==> s[j] != ch
  {
    if |s| == 0 then -1
    else if s[|s| - 1] == ch then |s| - 1
    else LastIndexOf(s[..|s| - 1], ch)
  }

  /**
   * `os.path.splitext(name)[0]` for a name without directory separators: the text before the
   * last dot, unless every character before that dot is itself a dot (".tif" has no extension).
   */
  function StripExt(name: string): (root: string)
    ensures |root| <= |name| && root == name[..|root|]
    ensures root != name ==>
      && name[|root|] == '.'
      && (forall j :: |root| < j < |name| ==> name[j] != '.')
      && (exists j :: 0 <= j < |root| && name[j] != '.')
    ensures root == name ==> forall j, k :: 0 <= j < k < |name| && name[k] == '.' ==> name[j] == '.'
  {
    var d := LastIndexOf(name, '.');
    if d > 0 && exists j :: 0 <= j < d && name[j] != '.' then name[..d] else name
  }

  /** A `.tif` name whose stem holds any character other than a dot loses exactly its `.tif`. */
  lemma StripTifExtension(stem: string)
    requires exists j :: 0 <= j < |stem| && stem[j] != '.'
    ensures StripExt(stem + ".tif") == stem
  {
    var name := stem + ".tif";
    var j :| 0 <= j < |stem| && stem[j] != '.';
    assert name[j] != '.' && name[|stem|] == '.';
    var root := StripExt(name);
    assert root != name;
    assert name[|stem| + 1] == 't' && name[|stem| + 2] == 'i' && name[|stem| + 3] == 'f';
    assert |root| == |stem|;
    assert root == name[..|stem|] == stem;
  }

  /** The name of the uint16 label image written for an input file. */
  function CountsFileName(name: string): string {
    StripExt(name) + "_Counts.tif"
  }

  /** The name of the per-cell table written for an input file. */
  function CellInfoFileName(name: string): string {
    StripExt(name) + "_CellInfo.csv"
  }
}
