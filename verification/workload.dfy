/**
 * The workload launcher (`pull_main_installer`, `run_main_installer`): pull
 * the installer image unless the local image listing mentions the local
 * tag, then create the global service.
 */
module Workload {
  import opened Text
  import opened Commands

  /** The tag looked for in the listing. */
  const LocalImage := "main-installer:local"
  /** The image pulled, and the one the service runs. */
  const RegistryImage := "ghcr.io/conceptixx/main-installer:latest"

  const ListImagesCommand: Command := RunCommand(["docker", "images", "--format", "{{.Repository}}:{{.Tag}}"], false)
  const PullCommand: Command := RunCommand(["docker", "pull", RegistryImage], false)
  const ServiceCreateCommand: Command := RunCommand([
    "docker", "service", "create",
    "--name", "main_installer",
    "--mode", "global",
    "--mount", "type=bind,src=/srv/docker/services,dst=/mnt/dins",
    RegistryImage], false)

  /** The pull decision: `"main-installer:local" in local_images`, where the
      listing is the stripped output of `docker images`. */
  function NeedsPull(imagesStdout: string): bool
  {
    !Contains(Strip(imagesStdout), LocalImage)
  }

  /** Stripping the listing does not change the decision: a pull is issued
      exactly when the raw output does not contain the local tag. */
  lemma NeedsPullIffTagAbsent(imagesStdout: string)
    ensures NeedsPull(imagesStdout) <==> !Contains(imagesStdout, LocalImage)
  {
    ContainsIgnoresStrip(imagesStdout, LocalImage);
  }

  /** The test is a substring test, not an exact match of a listing line:
      any repository whose name ends in `main-installer` with a tag starting
      with `local` also suppresses the pull. */
  lemma SubstringSuppressesPull()
    ensures !NeedsPull("ghcr.io/someone/" + LocalImage + "dev")
  {
    var listing := "ghcr.io/someone/" + LocalImage + "dev";
    assert listing[16..36] == LocalImage;
    assert OccursAt(listing, LocalImage, 16);
    NeedsPullIffTagAbsent(listing);
  }

  /** `pull_main_installer()` given the output of the image listing. */
  function PullMainInstaller(imagesStdout: string): (commands: seq<Command>)
    ensures |commands| >= 1 && commands[0] == ListImagesCommand
    ensures PullCommand in commands <==> !Contains(imagesStdout, LocalImage)
    ensures commands == [ListImagesCommand] + (if Contains(imagesStdout, LocalImage) then [] else [PullCommand])
  {
    NeedsPullIffTagAbsent(imagesStdout);
    [ListImagesCommand] + (if NeedsPull(imagesStdout) then [PullCommand] else [])
  }
}
