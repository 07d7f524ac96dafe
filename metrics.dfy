/** The image-metric interface and the small wrapper types shared by the
    cache, the precompute driver and the clusterer.

    An image metric (the abstract `Calculate(img1, img2)` of the metric
    interface) is modelled as a total function from two images to a
    non-negative distance.  The numeric norms behind it are not modelled:
    the function is left uninterpreted in every theorem. */
module Metrics {

  /** A distance: a non-negative real (the source returns a float norm). */
  type Distance = r: real | 0.0 <= r

  /** `metric.Calculate(img1, img2)` of an image metric. */
  type Metric<!Img> = (Img, Img) -> Distance

  /** Python's optional argument: `None` or a value. */
  datatype Option<T> = None | Some(value: T)

  /** A metric that does not depend on the order of its arguments. */
  ghost predicate Symmetric<Img(!new)>(metric: Metric<Img>) {
    forall a: Img, b: Img :: metric(a, b) == metric(b, a)
  }
}
