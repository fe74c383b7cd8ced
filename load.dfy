/** `labelFromTaskPath` from distributed/jobs/utils/load.js: the label a
    task file gets when its module declares none. The platform's path
    separator (`path.sep`) is a parameter. */
module TaskLoad {

  /** `s.lastIndexOf(c)`: the last position of `c`, or -1. */
  function LastIndexOf(s: string, c: char): (i: int)
    ensures -1 <= i < |s|
    ensures 0 <= i ==> s[i] == c
    ensures forall j :: i < j < |s| ==> s[j] != c
  {
    if |s| == 0 then -1
    else if s[|s| - 1] == c then |s| - 1
    else LastIndexOf(s[..|s| - 1], c)
  }

  predicate OccursAt(s: string, pat: string, j: int) {
    0 <= j && j + |pat| <= |s| && s[j..j + |pat|] == pat
  }

  /** `s.indexOf(pat)` searched from position `from`: the first position
      at or after `from` where `pat` occurs, or -1. */
  function IndexOfFrom(s: string, pat: string, from: nat): (i: int)
    requires from <= |s|
    ensures i == -1 || (from <= i && OccursAt(s, pat, i))
    ensures forall j :: from <= j && (i == -1 || j < i) ==> !OccursAt(s, pat, j)
    decreases |s| - from
  {
    if OccursAt(s, pat, from) then from
    else if from + |pat| >= |s| then -1
    else IndexOfFrom(s, pat, from + 1)
  }

  /** `s.replace(pat, rep)` with a string pattern: only the first
      occurrence is replaced. */
  function ReplaceFirst(s: string, pat: string, rep: string): string {
    var i := IndexOfFrom(s, pat, 0);
    if i < 0 then s else s[..i] + rep + s[i + |pat|..]
  }

  /** The part after the last separator, with the first ".js" removed. */
  function LabelFromTaskPath(taskPath: string, sep: char): (taskLabel: string)
    ensures sep !in taskLabel
    ensures sep !in taskPath ==> taskLabel == ReplaceFirst(taskPath, ".js", "")
    ensures |taskPath| > 0 && taskPath[|taskPath| - 1] == sep ==> taskLabel == ""
  {
    var file := taskPath[LastIndexOf(taskPath, sep) + 1..];
    var result := ReplaceFirst(file, ".js", "");
    assert forall c :: c in result ==> c in file;
    result
  }

  /** A path `<dir><sep><name>.js` whose file name holds no other ".js"
      yields `name`; the filler and the jobs worker rely on this for the
      labels that tasks name as dependencies. */
  lemma {:induction false} LabelOfTaskFile(dir: string, name: string, sep: char)
    requires sep !in name && sep != '.' && sep != 'j' && sep != 's'
    requires forall j :: !OccursAt(name, ".js", j)
    ensures LabelFromTaskPath(dir + [sep] + name + ".js", sep) == name
  {
    var path := dir + [sep] + name + ".js";
    var k := LastIndexOf(path, sep);
    assert path[|dir|] == sep;
    assert k == |dir|;
    var file := path[k + 1..];
    assert file == name + ".js";
    NoEarlierOccurrence(name);
    assert OccursAt(file, ".js", |name|);
    assert IndexOfFrom(file, ".js", 0) == |name|;
    assert file[..|name|] == name;
  }

  /** In `name + ".js"` the first ".js" is the suffix, unless `name`
      holds one itself: an occurrence cannot straddle the boundary. */
  lemma NoEarlierOccurrence(name: string)
    requires forall j :: !OccursAt(name, ".js", j)
    ensures forall j :: 0 <= j < |name| ==> !OccursAt(name + ".js", ".js", j)
  {
    var file := name + ".js";
    forall j | 0 <= j < |name|
      ensures !OccursAt(file, ".js", j)
    {
      if j + 3 <= |name| {
        assert file[j..j + 3] == name[j..j + 3];
        assert !OccursAt(name, ".js", j);
      } else if j == |name| - 1 {
        assert file[j + 1] == '.';
      } else {
        assert j == |name| - 2;
        assert file[j + 2] == '.';
      }
    }
  }

  /** A file name without a dot cannot contain ".js". */
  lemma NoDotNoOccurrence(name: string)
    requires '.' !in name
    ensures forall j :: !OccursAt(name, ".js", j)
  {
    forall j | 0 <= j < |name| && j + 3 <= |name|
      ensures !OccursAt(name, ".js", j)
    {
      assert name[j..j + 3][0] == name[j];
    }
  }

  lemma LabelOfWorkerTask(dir: string)
    ensures LabelFromTaskPath(dir + "/task11.js", '/') == "task11"
  {
    WorkerTaskName();
    LabelOfTaskFile(dir, "task11", '/');
    assert dir + ['/'] + "task11" + ".js" == dir + "/task11.js";
  }

  lemma WorkerTaskName()
    ensures '/' !in "task11" && forall j :: !OccursAt("task11", ".js", j)
  {
    var name := "task11";
    assert '.' !in name && '/' !in name by {
      forall i | 0 <= i < |name|
        ensures name[i] != '.' && name[i] != '/'
      {
      }
    }
    NoDotNoOccurrence(name);
  }

  /** Only the first ".js" goes, wherever it stands. */
  lemma LabelReplacesFirstOccurrenceOnly()
    ensures LabelFromTaskPath("a.js.js", '/') == "a.js"
    ensures LabelFromTaskPath("x.jsx", '/') == "xx"
  {
    var p, q := "a.js.js", "x.jsx";
    assert LastIndexOf(p, '/') == -1 && LastIndexOf(q, '/') == -1;
    assert p[0..3][0] != ".js"[0] && q[0..3][0] != ".js"[0];
    assert !OccursAt(p, ".js", 0) && !OccursAt(q, ".js", 0);
    assert p[1..4] == ".js" && q[1..4] == ".js";
    assert IndexOfFrom(p, ".js", 0) == IndexOfFrom(p, ".js", 1) == 1;
    assert IndexOfFrom(q, ".js", 0) == IndexOfFrom(q, ".js", 1) == 1;
    assert p[..1] + "" + p[4..] == "a.js" && q[..1] + "" + q[4..] == "xx";
  }
}
