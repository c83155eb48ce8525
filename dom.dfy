/**
 * The page as the scripts see it through `querySelector`, `querySelectorAll`,
 * `textContent`, `getAttribute('href')` and the `href` property: every element
 * carries its text, its href attribute as written, that attribute as the
 * browser resolves it against the page's address, and, for each selector,
 * the elements that selector finds inside it in document order.
 */
module Dom {
  import opened Wrappers

  /**
   * `href` is `getAttribute('href')` (None when the attribute is absent);
   * `resolvedHref` is the `href` property, the absolute address the browser
   * computes from it ("" when the attribute is absent).
   */
  datatype Node = Node(text: string, href: Option<string>, resolvedHref: string, found: map<string, seq<Node>>)

  /** `container.querySelectorAll(selector)`. */
  function QueryAll(container: Node, selector: string): seq<Node> {
    if selector in container.found then container.found[selector] else []
  }

  /** `container.querySelector(selector)`: the first element found, or null. */
  function Query(container: Node, selector: string): (r: Option<Node>)
    ensures r.None? <==> QueryAll(container, selector) == []
    ensures r.Some? ==> r.value == QueryAll(container, selector)[0]
  {
    var all := QueryAll(container, selector);
    if all == [] then None else Some(all[0])
  }
}
