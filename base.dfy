/** Small value types shared by every part of the simulation. */
module Base {

  datatype Option<+T> = None | Some(value: T)

  /** A point or a vector of the game world, in exact reals. */
  datatype Vec3 = Vec3(x: real, y: real, z: real)

  const Origin := Vec3(0.0, 0.0, 0.0)

  function Add(a: Vec3, b: Vec3): Vec3 {
    Vec3(a.x + b.x, a.y + b.y, a.z + b.z)
  }

  function Sub(a: Vec3, b: Vec3): Vec3 {
    Vec3(a.x - b.x, a.y - b.y, a.z - b.z)
  }

  function Scale(a: Vec3, k: real): Vec3 {
    Vec3(a.x * k, a.y * k, a.z * k)
  }

  /**
   * The two pieces of Euclidean geometry the game obtains from its vector
   * library: `dist` is the distance between two points and `unit` the
   * normalised direction of a vector (the zero vector for the zero vector).
   * Both involve square roots, so the model takes them as given functions.
   */
  datatype Geometry = Geometry(dist: (Vec3, Vec3) -> real, unit: Vec3 -> Vec3)

  /** Replacing, then cutting out, the element after `pre` in a list. */
  lemma ReplaceAndCut<T>(pre: seq<T>, x: T, post: seq<T>, y: T)
    ensures (pre + [x] + post)[|pre| := y] == pre + [y] + post
    ensures (pre + [y] + post)[..|pre|] + (pre + [y] + post)[|pre| + 1..] == pre + post
  {
    assert (pre + [x] + post)[|pre| := y] == pre + [y] + post;
    assert (pre + [y] + post)[..|pre|] == pre;
    assert (pre + [y] + post)[|pre| + 1..] == post;
  }

  /** Concatenation regrouped. */
  lemma Regroup<T>(a: seq<T>, b: seq<T>, c: seq<T>)
    ensures a + b + c == a + (b + c)
  {
  }
}
