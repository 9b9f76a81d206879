// The string formatting the batch-render operator relies on: Python's str()
// of a non-negative int, ", ".join of a list of names, and os.path.join of a
// directory and one relative component on a POSIX system.
module Text {

  predicate IsDigit(ch: char) {
    '0' <= ch <= '9'
  }

  predicate AllDigits(s: string) {
    forall i :: 0 <= i < |s| ==> IsDigit(s[i])
  }

  function DigitChar(d: nat): (ch: char)
    requires d < 10
    ensures IsDigit(ch)
  {
    "0123456789"[d]
  }

  function DigitValue(ch: char): (d: nat)
    requires IsDigit(ch)
    ensures d < 10 && DigitChar(d) == ch
  {
    (ch as int - '0' as int) as nat
  }

  /** str(n) for n >= 0: its decimal digits, with no leading zero. */
  function NatToString(n: nat): (s: string)
    ensures |s| >= 1 && AllDigits(s)
    ensures |s| > 1 ==> s[0] != '0'
  {
    if n < 10 then [DigitChar(n)] else NatToString(n / 10) + [DigitChar(n % 10)]
  }

  /** int(s) for a non-empty string of decimal digits. */
  function ParseNat(s: string): nat
    requires |s| >= 1 && AllDigits(s)
  {
    if |s| == 1 then DigitValue(s[0])
    else ParseNat(s[..|s| - 1]) * 10 + DigitValue(s[|s| - 1])
  }

  /** Reading back the digits str writes gives the number again. */
  lemma {:induction false} ParseNatToString(n: nat)
    ensures ParseNat(NatToString(n)) == n
  {
    if n >= 10 {
      var s := NatToString(n);
      assert s[..|s| - 1] == NatToString(n / 10);
      ParseNatToString(n / 10);
    }
  }

  /** Different counts are written differently. */
  lemma NatToStringInjective(m: nat, n: nat)
    requires NatToString(m) == NatToString(n)
    ensures m == n
  {
    ParseNatToString(m);
    ParseNatToString(n);
  }

  lemma AppendAssoc(x: string, y: string, z: string)
    ensures x + (y + z) == (x + y) + z
  {
  }

  /** The three parts of a concatenation can be cut back out of it. */
  lemma Parts3(x: string, y: string, z: string)
    ensures var s := x + y + z;
            s[..|x|] == x && s[|x|..|x| + |y|] == y && s[|x| + |y|..] == z
  {
  }

  /** ", ".join(names) */
  function JoinNames(names: seq<string>): string {
    if names == [] then ""
    else if |names| == 1 then names[0]
    else names[0] + ", " + JoinNames(names[1..])
  }

  /** Joining one more name appends the separator and that name. */
  lemma {:induction false} JoinNamesSnoc(names: seq<string>, name: string)
    requires names != []
    ensures JoinNames(names + [name]) == JoinNames(names) + ", " + name
  {
    if |names| == 1 {
      assert (names + [name])[1..] == [name];
    } else {
      assert (names + [name])[1..] == names[1..] + [name];
      JoinNamesSnoc(names[1..], name);
    }
  }

  /** A join of one or more names starts with the first name and ends with the last. */
  lemma {:induction false} JoinNamesEnds(names: seq<string>)
    requires names != []
    ensures var j := JoinNames(names);
            |j| >= |names[0]| && j[..|names[0]|] == names[0] &&
            |j| >= |names[|names| - 1]| && j[|j| - |names[|names| - 1]|..] == names[|names| - 1]
  {
    if |names| > 1 {
      JoinNamesEnds(names[1..]);
      var rest := JoinNames(names[1..]);
      assert JoinNames(names) == names[0] + ", " + rest;
      assert names[1..][|names[1..]| - 1] == names[|names| - 1];
    }
  }

  /**
   * os.path.join(dir, name) on POSIX: an absolute name replaces dir; otherwise
   * a "/" is put between them unless dir is empty or already ends in one.
   */
  function PathJoin(dir: string, name: string): (path: string)
    ensures |name| > 0 && name[0] == '/' ==> path == name
    ensures (|name| == 0 || name[0] != '/') ==>
              path == dir + (if dir == [] || dir[|dir| - 1] == '/' then "" else "/") + name
  {
    if |name| > 0 && name[0] == '/' then name
    else if dir == [] || dir[|dir| - 1] == '/' then
      assert dir + "" + name == dir + name;
      dir + name
    else dir + "/" + name
  }

  /** A relative name can be read back from the end of the joined path, whatever the directory. */
  lemma PathJoinName(dir: string, name: string)
    requires |name| == 0 || name[0] != '/'
    ensures var path := PathJoin(dir, name);
            |path| >= |name| && path[|path| - |name|..] == name
            && (|path| == |name| || path[|path| - |name| - 1] == '/')
  {
  }
}
