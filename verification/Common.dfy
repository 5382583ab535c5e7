/** What several components share. */
module Common {

  datatype Option<+T> = None | Some(value: T)

  const TWO_TO_THE_64: nat := 0x1_0000_0000_0000_0000

  function PowerOfTwo(n: nat): (p: nat)
    ensures p > 0
  {
    if n == 0 then 1 else 2 * PowerOfTwo(n - 1)
  }

  /** ASCII lower case. */
  function Lower(s: string): string {
    seq(|s|, i requires 0 <= i < |s| => if 'A' <= s[i] <= 'Z' then (s[i] as int + 32) as char else s[i])
  }
}
