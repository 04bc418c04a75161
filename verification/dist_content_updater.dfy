/** The packaged copy of the content updater
    (dist/toc_interface_updater/content_updater.py), which takes its
    directive patterns from the catalog rather than from literals. */
module DistContentUpdater {
  import opened Types
  import opened Catalog
  import ContentUpdater

  /** `update_interface_content`, with the current classic, classic,
      vanilla and base directives of the catalog. */
  function UpdateInterfaceContent(content: string, product: FullProduct, interface: string,
                                  multi: bool, singleLineMulti: bool): string
  {
    if multi && !singleLineMulti then
      match product
      case WowClassic =>
        ContentUpdater.SubDirective(ContentUpdater.SubDirective(content, CURRENT_CLASSIC, interface), CLASSIC, interface)
      case WowClassicEra => ContentUpdater.SubDirective(content, VANILLA, interface)
      case Wow => content
    else
      ContentUpdater.SubDirective(content, BASE, interface)
  }

  /** With Mists as the current classic expansion, the packaged copy rewrites
      every text exactly as the package does, so every property proved of
      the one holds of the other. */
  lemma SameAsPackage(content: string, product: FullProduct, interface: string, multi: bool, singleLineMulti: bool)
    ensures UpdateInterfaceContent(content, product, interface, multi, singleLineMulti)
         == ContentUpdater.UpdateInterfaceContent(content, product, interface, multi, singleLineMulti)
  {
  }
}
