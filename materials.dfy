/**
  How a brush model lays out its materials: grouped by material class, in
  the class order that keeps render state changes low, with
  material_index[c] the first material of class c and
  material_index[MATERIAL_END] one past the last; and the fixed-size
  animation table each animated material owns.
*/
module Materials {

  // enum material_class
  const MaterialStart := 0
  const MaterialSky := 0
  const MaterialBase := 1
  const MaterialFullbright := 2
  const MaterialFence := 3
  const MaterialFenceFullbright := 4
  const MaterialLiquid := 5
  const MaterialEnd := 6

  /**
    material_index[MATERIAL_END + 1] over `nummaterials` materials: it
    starts at 0, never decreases, and its last entry is one past the last
    material, so class c owns the materials material_index[c] up to, not
    including, material_index[c + 1].
  */
  predicate ValidMaterialIndex(index: seq<int>, nummaterials: int)
  {
    |index| == MaterialEnd + 1
    && index[MaterialStart] == 0
    && index[MaterialEnd] == nummaterials
    && forall c :: MaterialStart <= c < MaterialEnd ==> index[c] <= index[c + 1]
  }

  /** Material `i` lies in the range of class `c`. */
  predicate InClass(index: seq<int>, c: int, i: int)
    requires |index| == MaterialEnd + 1 && MaterialStart <= c < MaterialEnd
  {
    index[c] <= i < index[c + 1]
  }

  /** A non-decreasing index table is ordered between any two classes, not only neighbours. */
  lemma {:induction false} IndexMonotone(index: seq<int>, nummaterials: int, c: int, d: int)
    requires ValidMaterialIndex(index, nummaterials)
    requires MaterialStart <= c <= d <= MaterialEnd
    ensures index[c] <= index[d]
    decreases d - c
  {
    if c < d {
      IndexMonotone(index, nummaterials, c + 1, d);
    }
  }

  /** The class of material `i`, searched upward from class `c`. */
  function ClassFrom(index: seq<int>, nummaterials: int, i: int, c: int): (r: int)
    requires ValidMaterialIndex(index, nummaterials)
    requires MaterialStart <= c < MaterialEnd && index[c] <= i < nummaterials
    ensures c <= r < MaterialEnd && InClass(index, r, i)
    decreases MaterialEnd - c
  {
    if i < index[c + 1] then c
    else ClassFrom(index, nummaterials, i, c + 1)
  }

  /** The class whose range holds material `i`. */
  function ClassOf(index: seq<int>, nummaterials: int, i: int): (c: int)
    requires ValidMaterialIndex(index, nummaterials) && 0 <= i < nummaterials
    ensures MaterialStart <= c < MaterialEnd && InClass(index, c, i)
  {
    ClassFrom(index, nummaterials, i, MaterialStart)
  }

  /** The class ranges do not overlap: a material belongs to one class only. */
  lemma ClassIsUnique(index: seq<int>, nummaterials: int, i: int, c: int)
    requires ValidMaterialIndex(index, nummaterials) && 0 <= i < nummaterials
    requires MaterialStart <= c < MaterialEnd && InClass(index, c, i)
    ensures c == ClassOf(index, nummaterials, i)
  {
    var d := ClassOf(index, nummaterials, i);
    if c < d {
      IndexMonotone(index, nummaterials, c + 1, d);
    } else if d < c {
      IndexMonotone(index, nummaterials, d + 1, c);
    }
  }

  /** How many materials the classes from `c` on hold together. */
  function CountFrom(index: seq<int>, c: int): int
    requires |index| == MaterialEnd + 1 && MaterialStart <= c <= MaterialEnd
    decreases MaterialEnd - c
  {
    if c == MaterialEnd then 0 else (index[c + 1] - index[c]) + CountFrom(index, c + 1)
  }

  /** The class ranges cover the materials array: their sizes add up to nummaterials. */
  lemma {:induction false} ClassesCoverMaterials(index: seq<int>, nummaterials: int)
    requires ValidMaterialIndex(index, nummaterials)
    ensures CountFrom(index, MaterialStart) == nummaterials
  {
    CountTelescopes(index, MaterialStart);
  }

  lemma {:induction false} CountTelescopes(index: seq<int>, c: int)
    requires |index| == MaterialEnd + 1 && MaterialStart <= c <= MaterialEnd
    ensures CountFrom(index, c) == index[MaterialEnd] - index[c]
    decreases MaterialEnd - c
  {
    if c < MaterialEnd {
      CountTelescopes(index, c + 1);
    }
  }

  // ---------------------------------------------------------------------
  // material_animation_t

  /** The frames[10] and alt[10] tables of an animation. */
  const AnimationCapacity := 10

  /** material_animation_t: a material and its frames and alternate frames, each the index of a material. */
  datatype MaterialAnimation = MaterialAnimation(material: int, numframes: int, numalt: int,
                                                 frames: seq<int>, alt: seq<int>)

  /**
    The tables hold exactly ten entries, of which the first numframes and
    numalt are in use, each naming a material of the model.
  */
  predicate ValidAnimation(a: MaterialAnimation, nummaterials: int)
  {
    |a.frames| == AnimationCapacity && |a.alt| == AnimationCapacity
    && 0 <= a.numframes <= AnimationCapacity && 0 <= a.numalt <= AnimationCapacity
    && 0 <= a.material < nummaterials
    && (forall k :: 0 <= k < a.numframes ==> 0 <= a.frames[k] < nummaterials)
    && (forall k :: 0 <= k < a.numalt ==> 0 <= a.alt[k] < nummaterials)
  }

  /** The materials an animation steps through: the frames in use, and never more than ten. */
  function AnimationFrames(a: MaterialAnimation, nummaterials: int): (fs: seq<int>)
    requires ValidAnimation(a, nummaterials)
    ensures |fs| == a.numframes <= AnimationCapacity
    ensures forall k :: 0 <= k < |fs| ==> 0 <= fs[k] < nummaterials
  {
    a.frames[..a.numframes]
  }

  /** The same for the alternate frames. */
  function AnimationAltFrames(a: MaterialAnimation, nummaterials: int): (fs: seq<int>)
    requires ValidAnimation(a, nummaterials)
    ensures |fs| == a.numalt <= AnimationCapacity
    ensures forall k :: 0 <= k < |fs| ==> 0 <= fs[k] < nummaterials
  {
    a.alt[..a.numalt]
  }
}
