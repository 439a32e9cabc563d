/**
 * The two append-only member lists a converter fills while it walks a
 * class: the members of the generated type-only class, and the statements
 * (with `null` separators) of the proxy interface section.
 */
module Members {
  import opened Wrappers
  import opened TsAst

  class ClassMembers {
    var classMembers: seq<ClassElement>
    var interfaceDeclaration: seq<Option<Statement>>

    /** Both lists start empty. */
    constructor()
      ensures classMembers == [] && interfaceDeclaration == []
    {
      classMembers := [];
      interfaceDeclaration := [];
    }

    /** `addMembers`: append the members in argument order; the interface list is untouched. */
    method AddMembers(members: seq<ClassElement>)
      modifies this
      ensures classMembers == old(classMembers) + members
      ensures interfaceDeclaration == old(interfaceDeclaration)
    {
      classMembers := classMembers + members;
    }

    /** `addInterfaceDeclaration`: append the statements and separators in order; the member list is untouched. */
    method AddInterfaceDeclaration(members: seq<Option<Statement>>)
      modifies this
      ensures interfaceDeclaration == old(interfaceDeclaration) + members
      ensures classMembers == old(classMembers)
    {
      interfaceDeclaration := interfaceDeclaration + members;
    }
  }
}
