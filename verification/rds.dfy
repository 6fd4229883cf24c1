/** What an RDS instance type says about itself: its size-flexible family and the normalized
    units of its size. */
module RdsTypes {
  import opened Types

  predicate IsDatabaseService(service: string)
  {
    service == "rds" || service == "relational-db"
  }

  function Dots(s: string): nat
  {
    if s == [] then 0 else (if s[0] == '.' then 1 else 0) + Dots(s[1..])
  }

  /** Where the last dot is; the length if there is none. */
  function LastDot(s: string): (i: nat)
    ensures i <= |s|
    ensures i < |s| ==> s[i] == '.'
    ensures forall k :: i < k < |s| ==> s[k] != '.'
  {
    if s == [] then 0
    else
      var last := |s| - 1;
      if s[last] == '.' then last
      else
        var before := LastDot(s[..last]);
        if before == last then |s| else before
  }

  /** The family of a type with three or more parts, "db.r7g" for "db.r7g.large". */
  function FamilyOf(instanceType: string): (family: string)
    ensures family <= instanceType
  {
    if Dots(instanceType) < 2 then "" else instanceType[..LastDot(instanceType)]
  }

  function SizeOf(instanceType: string): string
  {
    if LastDot(instanceType) == |instanceType| then instanceType else instanceType[LastDot(instanceType) + 1..]
  }

  function UnitsOfSize(size: string): (units: real)
    ensures units >= 0.0
  {
    match size
    case "nano" => 0.25
    case "micro" => 0.5
    case "small" => 1.0
    case "medium" => 2.0
    case "large" => 4.0
    case "xlarge" => 8.0
    case "2xlarge" => 16.0
    case "4xlarge" => 32.0
    case "8xlarge" => 64.0
    case "10xlarge" => 80.0
    case "12xlarge" => 96.0
    case "16xlarge" => 128.0
    case "24xlarge" => 192.0
    case "32xlarge" => 256.0
    case _ => 0.0
  }

  /** The normalized units of one instance; zero for a size nobody listed. */
  function UnitsOfType(instanceType: string): (units: real)
    ensures units >= 0.0
  {
    if Dots(instanceType) < 2 then 0.0 else UnitsOfSize(SizeOf(instanceType))
  }

  /** A type is its family, a dot and its size, and the size decides the units. */
  lemma TypeSplits(family: string, size: string)
    requires Dots(family) >= 1 && '.' !in size
    ensures FamilyOf(family + "." + size) == family
    ensures UnitsOfType(family + "." + size) == UnitsOfSize(size)
  {
    hide UnitsOfSize, LastDot, Dots;
    var instanceType := family + "." + size;
    TwoDots(family, size);
    DotBeforeSize(family, size);
    assert instanceType[..|family|] == family && instanceType[|family| + 1..] == size;
  }

  lemma TwoDots(family: string, size: string)
    requires Dots(family) >= 1
    ensures Dots(family + "." + size) >= 2
  {
    DotsAdd(family + ".", size);
    DotsAdd(family, ".");
  }

  lemma {:induction false} DotBeforeSize(family: string, size: string)
    requires '.' !in size
    ensures LastDot(family + "." + size) == |family|
    decreases size
  {
    var instanceType := family + "." + size;
    if size == [] {
      assert instanceType == family + ".";
    } else {
      var last := |size| - 1;
      DotBeforeSize(family, size[..last]);
      assert instanceType[..|instanceType| - 1] == family + "." + size[..last];
      assert instanceType[|instanceType| - 1] == size[last];
    }
  }

  lemma {:induction false} DotsAdd(a: string, b: string)
    ensures Dots(a + b) == Dots(a) + Dots(b)
  {
    if a == [] {
      assert a + b == b;
    } else {
      assert (a + b)[1..] == a[1..] + b;
      DotsAdd(a[1..], b);
    }
  }

  function RowUnits(rec: Rec): real
  {
    rec.count as real * UnitsOfType(rec.resourceType)
  }
}
