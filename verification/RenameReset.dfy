/** Runs from the state that the constructor of registerRename builds. */
module RenameReset {
  import RegisterRename
  import opened Collections
  import opened RenameMachine
  import opened RenameSpec
  import opened RenameWindow

  lemma {:induction false} ResetMapsOneToOne(c: Config)
    requires c.Valid()
    ensures Inv(c, RegisterRename.InitTable(c), [])
    ensures var m := RegisterRename.InitCRAT(c); forall a, b :: a in m && b in m && m[a] == m[b] ==> a == b
  {
    RegisterRename.InitInv(c);
  }

  /** Nothing is in flight and every architectural register holds its value of `arch`. */
  ghost function Reset(c: Config, arch: map<nat, int>): Machine
    requires c.Valid()
  {
    ResetMapsOneToOne(c);
    var crat := RegisterRename.InitCRAT(c);
    Machine(RegisterRename.InitTable(c), [], map a | a in crat :: crat[a] := if a in arch then arch[a] else 0, arch, [])
  }

  lemma {:induction false} ResetHolds(c: Config, sem: Semantics, arch: map<nat, int>)
    requires c.Valid() && forall a :: c.IsAR(a) ==> a in arch
    ensures ValueInv(c, sem, Reset(c, arch)) && Records(sem, arch, Reset(c, arch)) && Follows(Reset(c, arch), Stream([], 0))
  {
    var m := Reset(c, arch);
    ResetMapsOneToOne(c);
    var crat := RegisterRename.InitCRAT(c);
    forall a | c.IsAR(a) ensures a in crat && Get(m.val, crat[a]) == arch[a] {
      assert a in crat;
      assert crat[a] in m.val;
    }
  }

  /** The machine after the events `es` from reset, or None when one of them is not enabled. */
  ghost function RunFromReset(c: Config, sem: Semantics, arch: map<nat, int>, es: seq<Event>): Option<Machine>
    requires c.Valid() && forall a :: c.IsAR(a) ==> a in arch
  {
    ResetHolds(c, sem, arch);
    Run(c, sem, Reset(c, arch), es)
  }

  /** From reset, whatever renames, completes, commits and is squashed, the physical registers agree with sequential
      execution of the renamed stream without the squashed instructions. */
  lemma {:induction false} FromReset(c: Config, sem: Semantics, arch: map<nat, int>, es: seq<Event>)
    requires c.Valid() && forall a :: c.IsAR(a) ==> a in arch
    ensures var r := RunFromReset(c, sem, arch, es);
            r.Some? ==> Agrees(c, sem, arch, r.value.t, r.value.win, r.value.val, StreamAfter(Stream([], 0), es))
  {
    ResetHolds(c, sem, arch);
    RunRefinesSequential(c, sem, arch, Reset(c, arch), es, Stream([], 0));
  }
}
