/**
 * The durable host-cgroup binding: which run owns which cgroup directory,
 * and how far its retirement got. Paths are spelled as strings.
 */
module CgroupRecord {
  import opened Common

  const BINDING_VERSION: nat := 2
  const MOUNT_PREFIX := "/sys/fs/cgroup/"

  datatype Binding = Binding(
    version: nat, runId: string, nonce: string, delegatedParent: string, runRoot: string, bootId: string,
    prepared: bool, cleaned: bool, emptyConfirmed: bool)

  datatype Scope = Scope(delegatedParent: string, runRoot: string, runId: string, nonce: string, bootId: string)

  /** The authority of a binding; an intent that was only prepared has none. */
  function ScopeOf(b: Binding): Option<Scope>
  {
    if b.prepared then None else Some(Scope(b.delegatedParent, b.runRoot, b.runId, b.nonce, b.bootId))
  }

  datatype Phase = Prepared | Bound | EmptyConfirmed | Cleaned

  function PhaseOf(b: Binding): Phase
  {
    if b.cleaned then Cleaned else if b.prepared then Prepared else if b.emptyConfirmed then EmptyConfirmed else Bound
  }

  /** The phases one binding may go through: forwards, or from an intent that came to nothing to the end. */
  predicate PhaseEdge(a: Phase, b: Phase)
  {
    match a
    case Prepared => b != EmptyConfirmed
    case Bound => b == Bound || b == EmptyConfirmed
    case EmptyConfirmed => b == EmptyConfirmed || b == Cleaned
    case Cleaned => b == Cleaned
  }

  // ---- names ----

  predicate IsPlainNameChar(c: char)
  {
    'a' <= c <= 'z' || 'A' <= c <= 'Z' || '0' <= c <= '9' || c == '-' || c == '_' || c == '.'
  }

  function Sanitized(raw: string): (s: string)
    ensures |s| == |raw|
    ensures forall c | c in s :: IsPlainNameChar(c)
    ensures forall i | 0 <= i < |raw| :: s[i] == if IsPlainNameChar(raw[i]) then raw[i] else '_'
  {
    if raw == "" then "" else [if IsPlainNameChar(raw[0]) then raw[0] else '_'] + Sanitized(raw[1..])
  }

  /** One path component for a run id. */
  function SanitizeRunComponent(raw: string): (s: string)
    ensures s != "" && forall c | c in s :: IsPlainNameChar(c)
    ensures raw != "" ==> |s| == |raw| && forall i | 0 <= i < |raw| ::
      s[i] == if IsPlainNameChar(raw[i]) then raw[i] else '_'
  {
    if raw == "" then "_" else Sanitized(raw)
  }

  function RunRootName(runId: string, nonce: string): string
  {
    "qcg-" + SanitizeRunComponent(runId) + "-" + nonce
  }

  predicate IsNonce(nonce: string)
  {
    |nonce| == 32 && forall c | c in nonce :: '0' <= c <= '9' || 'a' <= c <= 'f'
  }

  // ---- validation ----

  /** A delegated parent: a path strictly below the mount, without empty or dot components. */
  predicate IsDelegatedParent(parent: string)
  {
    && MOUNT_PREFIX <= parent
    && var relative := parent[|MOUNT_PREFIX|..];
       && relative != ""
       && forall part | part in SplitOn(relative, '/') :: part != "" && part != "." && part != ".."
  }

  predicate PathsMatch(b: Binding, expected: string)
  {
    IsDelegatedParent(b.delegatedParent) && b.runRoot == b.delegatedParent + "/" + RunRootName(expected, b.nonce)
  }

  /** The checks of a persisted record that need no file system. */
  predicate ValidRecord(b: Binding, expected: string)
  {
    && (b.version == BINDING_VERSION || (b.version == 1 && !b.prepared))
    && b.runId == expected
    && IsNonce(b.nonce)
    && b.bootId != ""
    && PathsMatch(b, expected)
    && (b.cleaned ==> b.emptyConfirmed)
    && !(b.prepared && b.emptyConfirmed && !b.cleaned)
  }

  /**
   * The identity checks before any cleanup. A cleaned record is accepted
   * under every boot and configuration; any other one only in its own boot
   * and, when a delegation is configured, under the same parent.
   */
  predicate ValidBinding(b: Binding, boot: string, configured: Option<string>, expected: string)
  {
    && ValidRecord(b, expected)
    && (b.cleaned || (boot == b.bootId && (configured.Some? ==> configured.value == b.delegatedParent)))
  }

  // ---- consequences ----

  /** A run root is exactly one new component below its delegated parent, whatever the run id is. */
  lemma RootIsChildOfParent(b: Binding, expected: string)
    requires ValidRecord(b, expected)
    ensures var name := RunRootName(expected, b.nonce);
            && SplitOn(b.runRoot, '/') == SplitOn(b.delegatedParent, '/') + [name]
            && name != "" && name != "." && name != ".."
  {
    var name := RunRootName(expected, b.nonce);
    var safe := SanitizeRunComponent(expected);
    assert '/' !in safe by {
      assert !IsPlainNameChar('/');
    }
    assert '/' !in name;
    SplitOnAbsent(name, '/');
    SplitOnConcat(b.delegatedParent, name, '/');
    assert name[0] == 'q';
  }

  /** Records of different executions never name the same directory. */
  lemma RootsDiffer(a: Binding, b: Binding)
    requires ValidRecord(a, a.runId) && ValidRecord(b, b.runId) && a.nonce != b.nonce
    ensures a.runRoot != b.runRoot
  {
    RootEndsWithNonce(a);
    RootEndsWithNonce(b);
  }

  lemma RootEndsWithNonce(b: Binding)
    requires PathsMatch(b, b.runId) && IsNonce(b.nonce)
    ensures EndsWith(b.runRoot, b.nonce)
  {
    var head := b.delegatedParent + "/" + ("qcg-" + SanitizeRunComponent(b.runId) + "-");
    assert b.runRoot == head + b.nonce;
  }

  /** A path has one nonce: the last 32 characters. */
  lemma NonceIsDetermined(path: string, a: string, b: string)
    requires |a| == |b| == 32 && EndsWith(path, a) && EndsWith(path, b)
    ensures a == b
  {
  }
}
