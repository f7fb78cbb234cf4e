/** Names of environments, boxes, forks and snapshots (internal/store/store.go). */
module Names {

  predicate IsDigit(c: char) {
    '0' <= c <= '9'
  }

  predicate IsLowerAlnum(c: char) {
    'a' <= c <= 'z' || IsDigit(c)
  }

  predicate IsAlnum(c: char) {
    IsLowerAlnum(c) || 'A' <= c <= 'Z'
  }

  /** envIDPattern: a DNS label. */
  predicate ValidEnvID(id: string) {
    && 1 <= |id| <= 63
    && IsLowerAlnum(id[0]) && IsLowerAlnum(id[|id|-1])
    && forall i | 0 <= i < |id| :: IsLowerAlnum(id[i]) || id[i] == '-'
  }

  /** snapIDPattern. */
  predicate ValidSnapID(id: string) {
    && 1 <= |id| <= 128
    && IsAlnum(id[0])
    && forall i | 0 <= i < |id| :: IsAlnum(id[i]) || id[i] in ['.', '_', '-']
  }

  /** The pattern: one letter or digit, or a first, up to 61 with hyphens among
      them, and a last. */
  lemma EnvIDPattern(a: char, mid: string, z: char)
    ensures !ValidEnvID("")
    ensures ValidEnvID([a]) <==> 'a' <= a <= 'z' || '0' <= a <= '9'
    ensures ValidEnvID([a] + mid + [z]) <==>
      && ('a' <= a <= 'z' || '0' <= a <= '9') && ('a' <= z <= 'z' || '0' <= z <= '9') && |mid| <= 61
      && forall i | 0 <= i < |mid| :: 'a' <= mid[i] <= 'z' || '0' <= mid[i] <= '9' || mid[i] == '-'
  {
    var id := [a] + mid + [z];
    assert forall i | 0 <= i < |mid| :: id[i+1] == mid[i];
    assert forall i | 0 < i < |id| - 1 :: id[i] == mid[i-1];
  }

  /** The pattern: a letter or digit, then up to 127 of them, dots, underscores
      and hyphens. */
  lemma SnapIDPattern(a: char, rest: string)
    ensures !ValidSnapID("")
    ensures ValidSnapID([a] + rest) <==>
      && ('a' <= a <= 'z' || 'A' <= a <= 'Z' || '0' <= a <= '9') && |rest| <= 127
      && forall i | 0 <= i < |rest| ::
           || 'a' <= rest[i] <= 'z' || 'A' <= rest[i] <= 'Z' || '0' <= rest[i] <= '9'
           || rest[i] == '.' || rest[i] == '_' || rest[i] == '-'
  {
    var id := [a] + rest;
    assert forall i | 0 <= i < |rest| :: id[i+1] == rest[i];
    assert forall i | 0 < i < |id| :: id[i] == rest[i-1];
  }
}
