/** The `Basket` class of model/modules/baskets.py: a named list of parts that
    only ever grows at its end. */
module Baskets {
  import opened Parts

  class Basket {
    var name: string
    var parts: seq<Part>

    /** A new basket has the given name and no parts. */
    constructor (name: string)
      ensures this.name == name && parts == []
    {
      this.name := name;
      parts := [];
    }

    /** `add_part`: appends the part, with no check for duplicates; never
        fails and never renames the basket. */
    method AddPart(part: Part)
      modifies this
      ensures parts == old(parts) + [part]
      ensures name == old(name)
    {
      parts := parts + [part];
    }
  }

  /** Adding one part twice keeps both copies, in the order added, after the
      parts already there. */
  method AddPartTwice(b: Basket, part: Part)
    modifies b
    ensures b.parts == old(b.parts) + [part, part]
    ensures |b.parts| == |old(b.parts)| + 2
    ensures b.name == old(b.name)
  {
    b.AddPart(part);
    b.AddPart(part);
  }
}
