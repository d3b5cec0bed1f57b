/** The filename sequencer: the ordered chain of log file paths
    `[base, base.1, …, base.(n-1)]` derived once at startup. */
module Paths {

  type Path = string

  /** True iff no path occurs twice in `names`. */
  predicate Distinct(names: seq<Path>) {
    forall i, j :: 0 <= i < j < |names| ==> names[i] != names[j]
  }

  /** `os.path.join(dir, base)` under the POSIX rule: an absolute `base`
      replaces `dir`; otherwise one '/' separates them unless `dir` is empty
      or already ends with '/'. */
  function Join(dir: string, base: string): (p: Path)
    ensures |p| >= |base| && p[|p| - |base|..] == base
    ensures |base| > 0 && base[0] == '/' ==> p == base
    ensures !(|base| > 0 && base[0] == '/') && (|dir| == 0 || dir[|dir| - 1] == '/') ==> p == dir + base
    ensures !(|base| > 0 && base[0] == '/') && |dir| > 0 && dir[|dir| - 1] != '/' ==> p == dir + "/" + base
  {
    if |base| > 0 && base[0] == '/' then base
    else if |dir| == 0 || dir[|dir| - 1] == '/' then dir + base
    else dir + "/" + base
  }

  function DigitChar(d: nat): char
    requires d < 10
  {
    ('0' as int + d) as char
  }

  function DigitValue(c: char): nat {
    if '0' <= c <= '9' then c as int - '0' as int else 0
  }

  /** `str(n)` for a non-negative integer: its decimal digits, most
      significant first. */
  function NatToString(n: nat): (s: string)
    ensures |s| >= 1
    ensures forall k :: 0 <= k < |s| ==> '0' <= s[k] <= '9'
    decreases n
  {
    if n < 10 then [DigitChar(n)] else NatToString(n / 10) + [DigitChar(n % 10)]
  }

  /** The value of a string of decimal digits, as `int()` reads it. */
  function DecimalValue(s: string): nat {
    if |s| == 0 then 0 else DecimalValue(s[..|s| - 1]) * 10 + DigitValue(s[|s| - 1])
  }

  /** Reading back the rendering of `n` gives `n`: `int(str(n)) == n`. */
  lemma {:induction false} DecimalRoundTrip(n: nat)
    ensures DecimalValue(NatToString(n)) == n
    decreases n
  {
    var s := NatToString(n);
    if n >= 10 {
      DecimalRoundTrip(n / 10);
      assert s[..|s| - 1] == NatToString(n / 10);
    }
  }

  /** Different numbers render differently, so numbered names never clash. */
  lemma NatToStringInjective(a: nat, b: nat)
    requires NatToString(a) == NatToString(b)
    ensures a == b
  {
    DecimalRoundTrip(a);
    DecimalRoundTrip(b);
  }

  /** The names `name.lo`, …, `name.(hi-1)`: the body of the loop over
      `range(lo, hi)`, which is empty when `hi <= lo`. */
  function NumberedNames(name: Path, lo: nat, hi: int): (names: seq<Path>)
    ensures |names| == if hi > lo then hi - lo else 0
    ensures forall k :: 0 <= k < |names| ==> names[k] == name + "." + NatToString(lo + k)
    decreases hi - lo
  {
    if hi <= lo then [] else [name + "." + NatToString(lo)] + NumberedNames(name, lo + 1, hi)
  }

  /** The rotation chain: the bare name under `path`, then one suffixed name
      per older generation. A count below 1 still yields the bare name. */
  function BuildLogFilenames(basename: string, path: string, maxNumber: int): (names: seq<Path>)
    ensures |names| == if maxNumber > 1 then maxNumber else 1
    ensures names[0] == Join(path, basename)
    ensures forall i :: 1 <= i < |names| ==> names[i] == names[0] + "." + NatToString(i)
  {
    var name := Join(path, basename);
    [name] + NumberedNames(name, 1, maxNumber)
  }

  /** Two numbered names built on the same name are equal only for the
      same number. */
  lemma NumberedNameInjective(name: Path, a: nat, b: nat)
    requires name + "." + NatToString(a) == name + "." + NatToString(b)
    ensures a == b
  {
    var m := |name| + 1;
    assert (name + "." + NatToString(a))[m..] == NatToString(a);
    assert (name + "." + NatToString(b))[m..] == NatToString(b);
    NatToStringInjective(a, b);
  }

  /** The chain never names one file twice, so rotation moves are between
      different files. */
  lemma BuildLogFilenamesDistinct(basename: string, path: string, maxNumber: int)
    ensures Distinct(BuildLogFilenames(basename, path, maxNumber))
  {
    ChainDistinct(Join(path, basename), maxNumber);
  }

  lemma ChainDistinct(name: Path, maxNumber: int)
    ensures Distinct([name] + NumberedNames(name, 1, maxNumber))
  {
    var names := [name] + NumberedNames(name, 1, maxNumber);
    forall i, j | 0 <= i < j < |names|
      ensures names[i] != names[j]
    {
      if i == 0 {
        assert |names[j]| > |names[0]|;
      } else if names[i] == names[j] {
        NumberedNameInjective(name, i, j);
      }
    }
  }
}
