/** An abstract `URL`: the text given to `URL(string:)` followed by the path
    components added with `appendingPathComponent`. Foundation's parsing,
    percent-encoding and slash normalisation are not modelled. */
module Urls {

  datatype Url = Url(root: string, components: seq<string>) {

    /** `appendingPathComponent(c)`: one more component, the others untouched. */
    function AppendingPathComponent(c: string): (u: Url)
      ensures u.root == root && u.components == components + [c]
    {
      Url(root, components + [c])
    }

    /** `absoluteString`, rendered as the root and each component after a "/". */
    function AbsoluteString(): string {
      root + JoinComponents(components)
    }
  }

  function JoinComponents(cs: seq<string>): string {
    if cs == [] then "" else JoinComponents(cs[..|cs| - 1]) + "/" + cs[|cs| - 1]
  }
}
