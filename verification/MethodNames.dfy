/** Names and descriptors of methods (sections 4.2.2 and 4.3.3 of the Java Virtual Machine Specification). */
module MethodNames {
  import opened Text

  const BASE_TYPES: set<CodeUnit> := {0x42, 0x43, 0x44, 0x46, 0x49, 0x4A, 0x53, 0x5A}
  const SEMICOLON: CodeUnit := 0x3B
  const BRACKET: CodeUnit := 0x5B
  const OPEN: CodeUnit := 0x28
  const CLOSE: CodeUnit := 0x29
  const VOID: Text := [0x56]

  /** `<init>` and `<clinit>` */
  const SPECIAL_NAMES: set<Text> := {[0x3C, 0x69, 0x6E, 0x69, 0x74, 0x3E], [0x3C, 0x63, 0x6C, 0x69, 0x6E, 0x69, 0x74, 0x3E]}

  /** Not empty, and none of `.`, `;`, `[`, `/`, `<` and `>` but in the special names. */
  predicate IsMethodName(t: Text) {
    t in SPECIAL_NAMES || (t != [] && forall c :: c in t ==> c !in {0x2E, SEMICOLON, BRACKET, SLASH, 0x3C, 0x3E})
  }

  /** The position of the first semicolon, the length when there is none. */
  function FindSemicolon(t: Text): (i: nat)
    ensures i <= |t|
  {
    if t == [] || t[0] == SEMICOLON then 0 else 1 + FindSemicolon(t[1..])
  }

  /** How much of the text is the field type it starts with; nothing when it starts with none. */
  function TypeLength(t: Text): (n: nat)
    ensures n <= |t|
  {
    if t == [] then 0
    else if t[0] in BASE_TYPES then 1
    else if t[0] == BRACKET then
      var n := TypeLength(t[1..]);
      if n == 0 then 0 else n + 1
    else if t[0] == 0x4C then
      var k := FindSemicolon(t);
      if 1 < k < |t| && forall c :: c in t[1..k] ==> c !in {0x2E, BRACKET} then k + 1 else 0
    else 0
  }

  predicate AreTypes(t: Text) {
    t == [] || (TypeLength(t) > 0 && AreTypes(t[TypeLength(t)..]))
  }

  predicate IsReturnType(t: Text) {
    t == VOID || (t != [] && TypeLength(t) == |t|)
  }

  predicate ClosesAt(t: Text, k: nat) {
    0 < k < |t| && t[0] == OPEN && t[k] == CLOSE && AreTypes(t[1..k]) && IsReturnType(t[k + 1..])
  }

  /** Parameter types in parentheses and a return type. */
  predicate IsDescriptor(t: Text) {
    exists k :: 0 <= k < |t| && ClosesAt(t, k)
  }
}
